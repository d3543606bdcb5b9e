/**
 * The data operations of an update transaction and their undo records, on lid-addressed
 * storage: exactly when each undo restores, and what aborting a whole transaction gives back.
 */
module Undo {
  import opened Wrappers
  import A = Adjacency
  import R = Rebuild

  datatype VRow = VRow(oid: int, live: bool, props: seq<int>)

  type Tables = map<Triplet, A.Table>
  type Captures = map<Triplet, seq<Option<A.Cap>>>

  /** The labels without a tombstone, and the triplets with one. */
  datatype Kinds = Kinds(valid: set<nat>, soft: set<Triplet>)

  datatype Graph = Graph(rows: map<nat, seq<VRow>>, tables: Tables, kinds: Kinds)

  datatype Op =
    | AddVertex(l: nat, oid: int, props: seq<int>)
    | DeleteVertex(l: nat, lid: nat)
    | AddEdge(t: Triplet, src: nat, dst: nat, data: int)
    | DeleteEdge(t: Triplet, e: A.Cap)
    | SetVertex(l: nat, lid: nat, col: nat, value: int)
    | SetEdge(t: Triplet, src: nat, dst: nat, oe: nat, ie: nat, value: int)

  datatype Undo =
    | UnAddVertex(l: nat, lid: nat)
    | UnDeleteVertex(l: nat, lid: nat, caps: Captures)
    | UnAddEdge(t: Triplet, e: A.Cap)
    | UnDeleteEdge(t: Triplet, e: A.Cap)
    | UnSetVertex(l: nat, lid: nat, col: nat, value: int)
    | UnSetEdge(t: Triplet, src: nat, dst: nat, oe: nat, ie: nat, value: int)

  datatype Step = Step(graph: Graph, undo: Undo)

  predicate OnEdge(op: Op) { op.AddEdge? || op.DeleteEdge? || op.SetEdge? }

  predicate OfEdge(u: Undo) { u.UnAddEdge? || u.UnDeleteEdge? || u.UnSetEdge? }

  // ------------------------------------------------------------------------------------
  // Operations
  // ------------------------------------------------------------------------------------

  function Rows(g: Graph, l: nat): (r: seq<VRow>) { if l in g.rows then g.rows[l] else [] }

  function FindRow(rows: seq<VRow>, oid: int): (r: Option<nat>)
    ensures r.Some? ==> r.value < |rows| && rows[r.value].oid == oid
  {
    if rows == [] then None
    else if rows[|rows| - 1].oid == oid then Some(|rows| - 1)
    else FindRow(rows[..|rows| - 1], oid)
  }

  /** The row a new vertex gets: a dead row of its oid, else a fresh one. */
  function PlaceFor(rows: seq<VRow>, oid: int): (lid: nat)
    ensures lid <= |rows|
  {
    match FindRow(rows, oid) case Some(k) => k case None => |rows|
  }

  predicate Exists(g: Graph, t: Triplet) { t in g.tables && Reaches(g.kinds, t) && t !in g.kinds.soft }

  predicate ValidLid(g: Graph, l: nat, lid: nat) { lid < |Rows(g, l)| && Rows(g, l)[lid].live }

  /** Both labels of the triplet are there. */
  predicate Reaches(k: Kinds, t: Triplet) { t.src in k.valid && t.dst in k.valid }

  /** A vertex removal records edges of this triplet; one with a tombstone is passed over. */
  predicate Recordable(k: Kinds, t: Triplet, l: nat) { Reaches(k, t) && t !in k.soft && (t.src == l || t.dst == l) }

  /** Removing a vertex from one table: by its label's side, as the triplet loop calls it. */
  function DropTable(k: Kinds, t: Triplet, tab: A.Table, l: nat, lid: nat): (r: Option<A.Table>) {
    if !Reaches(k, t) then Some(tab)
    else
      var first := if t.dst == l then A.DropOut(tab, lid, 0) else Some(tab);
      if first.None? || t.src != l then first else A.DropIn(first.value, lid)
  }

  /** The loop asks whether the schema knows the triplet, not whether it has a tombstone. */
  function DropTables(k: Kinds, tables: Tables, l: nat, lid: nat): (r: Option<Tables>) {
    if exists t | t in tables :: DropTable(k, t, tables[t], l, lid).None? then None
    else Some(map t | t in tables :: DropTable(k, t, tables[t], l, lid).value)
  }

  /** What a vertex removal records: outgoing slots of its own label's triplets, incoming from other labels. */
  function Capture(k: Kinds, tables: Tables, l: nat, lid: nat): (r: Captures) {
    map t | t in tables && Recordable(k, t, l) ::
      if t.src == l then A.CaptureOut(tables[t], lid, 0) else A.CaptureIn(tables[t], lid)
  }

  function SetRow(g: Graph, l: nat, lid: nat, row: VRow): (g': Graph)
    requires l in g.rows && lid <= |g.rows[l]|
  {
    var rows := g.rows[l];
    g.(rows := g.rows[l := if lid < |rows| then rows[lid := row] else rows + [row]])
  }

  /** None: refused, with nothing changed. */
  function Do(g: Graph, ts: nat, op: Op): (r: Option<Step>) {
    match op
    case AddVertex(l, oid, props) =>
      var lid := PlaceFor(Rows(g, l), oid);
      if l !in g.kinds.valid || l !in g.rows || ValidLid(g, l, lid) then None
      else Some(Step(SetRow(g, l, lid, VRow(oid, true, props)), UnAddVertex(l, lid)))
    case DeleteVertex(l, lid) =>
      if l !in g.kinds.valid || !ValidLid(g, l, lid) then None
      else (match DropTables(g.kinds, g.tables, l, lid)
        case None => None
        case Some(tables) =>
          Some(Step(SetRow(g, l, lid, Rows(g, l)[lid].(live := false)).(tables := tables),
                    UnDeleteVertex(l, lid, Capture(g.kinds, g.tables, l, lid)))))
    case SetVertex(l, lid, col, value) =>
      if l !in g.kinds.valid || !ValidLid(g, l, lid) || col >= |Rows(g, l)[lid].props| then None
      else Some(Step(SetProp(g, l, lid, col, value), UnSetVertex(l, lid, col, Rows(g, l)[lid].props[col])))
    case _ =>
      if !Exists(g, op.t) || EdgeDo(g.tables[op.t], ts, op).None? then None
      else
        var s := EdgeDo(g.tables[op.t], ts, op).value;
        Some(Step(g.(tables := g.tables[op.t := s.table]), s.undo))
  }

  datatype EdgeStep = EdgeStep(table: A.Table, undo: Undo)

  /** An operation on one edge, in the table of its triplet. */
  function EdgeDo(tab: A.Table, ts: nat, op: Op): (r: Option<EdgeStep>)
    requires OnEdge(op)
  {
    match op
    case AddEdge(t, src, dst, data) =>
      if A.PutCap(tab, src, dst, data, ts).None? then None
      else Some(EdgeStep(A.PutEdge(tab, src, dst, data, ts), UnAddEdge(t, A.PutCap(tab, src, dst, data, ts).value)))
    case DeleteEdge(t, e) =>
      if A.DeleteEdge(tab, e).None? then None
      else Some(EdgeStep(A.DeleteEdge(tab, e).value, UnDeleteEdge(t, e)))
    case SetEdge(t, src, dst, oe, ie, value) =>
      if A.SetEdge(tab, src, dst, oe, ie, value).None? then None
      else Some(EdgeStep(A.SetEdge(tab, src, dst, oe, ie, value).value,
                         UnSetEdge(t, src, dst, oe, ie, A.NthData(A.List(tab.out, src), oe))))
  }

  function SetProp(g: Graph, l: nat, lid: nat, col: nat, value: int): (g': Graph) {
    if !ValidLid(g, l, lid) || col >= |Rows(g, l)[lid].props| then g
    else SetRow(g, l, lid, Rows(g, l)[lid].(props := Rows(g, l)[lid].props[col := value]))
  }

  function ReviveTables(tables: Tables, caps: Captures, ts: nat): (r: Option<Tables>) {
    if exists t | t in tables :: ReviveTable(t, tables[t], caps, ts).None? then None
    else Some(map t | t in tables :: ReviveTable(t, tables[t], caps, ts).value)
  }

  function ReviveTable(t: Triplet, tab: A.Table, caps: Captures, ts: nat): (r: Option<A.Table>) {
    if t in caps then A.ReviveAll(tab, caps[t], ts) else Some(tab)
  }

  /** Running one undo record; None where the original throws. */
  function Undone(g: Graph, ts: nat, u: Undo): (r: Option<Graph>) {
    match u
    case UnAddVertex(l, lid) =>
      (match DropTables(g.kinds, g.tables, l, lid)
       case None => None
       case Some(tables) =>
         if ValidLid(g, l, lid) then Some(SetRow(g, l, lid, Rows(g, l)[lid].(live := false)).(tables := tables))
         else Some(g.(tables := tables)))
    case UnDeleteVertex(l, lid, caps) =>
      if l !in g.rows || lid >= |g.rows[l]| then None
      else (match ReviveTables(g.tables, caps, ts)
        case None => None
        case Some(tables) => Some(SetRow(g, l, lid, Rows(g, l)[lid].(live := true)).(tables := tables)))
    case UnSetVertex(l, lid, col, value) => Some(SetProp(g, l, lid, col, value))
    case _ =>
      if u.t !in g.tables || EdgeUndo(g.tables[u.t], ts, u).None? then None
      else Some(g.(tables := g.tables[u.t := EdgeUndo(g.tables[u.t], ts, u).value]))
  }

  function EdgeUndo(tab: A.Table, ts: nat, u: Undo): (r: Option<A.Table>)
    requires OfEdge(u)
  {
    match u
    case UnAddEdge(_, e) => A.DeleteEdge(tab, e)
    case UnDeleteEdge(_, e) => A.RevertDeleteEdge(tab, e, ts)
    case UnSetEdge(_, src, dst, oe, ie, value) => A.SetEdge(tab, src, dst, oe, ie, value)
  }

  // ------------------------------------------------------------------------------------
  // The same visible graph
  // ------------------------------------------------------------------------------------

  ghost predicate EdgesOk(tables: Tables) { forall t | t in tables :: A.TableOk(tables[t]) }

  /** Same rows in the same places, dead rows appended; payload kept where the origin shows the row. */
  ghost predicate SameRows(o: Graph, l: nat, x: seq<VRow>, y: seq<VRow>) {
    && |x| <= |y|
    && (forall k: nat | k < |x| ::
          y[k].oid == x[k].oid && y[k].live == x[k].live && (ValidLid(o, l, k) ==> y[k].props == x[k].props))
    && (forall k: nat | |x| <= k < |y| :: !y[k].live)
  }

  /**
   * `h` shows what `g` shows, as far as a transaction that began on `o` has to care; in the tables
   * of `p`, whose offsets are on record, slot for slot.
   */
  ghost predicate Same(p: set<Triplet>, o: Graph, g: Graph, h: Graph) {
    SameVertices(o, g.rows, h.rows) && SameEdges(p, g.tables, h.tables) && g.kinds == h.kinds
  }

  ghost predicate SameVertices(o: Graph, x: map<nat, seq<VRow>>, y: map<nat, seq<VRow>>) {
    x.Keys == y.Keys && forall l | l in x :: SameRows(o, l, x[l], y[l])
  }

  ghost predicate SameEdges(p: set<Triplet>, x: Tables, y: Tables) {
    x.Keys == y.Keys && forall t | t in x :: SameAt(p, t, x[t], y[t])
  }

  ghost predicate SameAt(p: set<Triplet>, t: Triplet, x: A.Table, y: A.Table) {
    if t in p then A.SameTable(x, y) else R.Shows(x, y)
  }

  ghost predicate Restored(p: set<Triplet>, o: Graph, g: Graph, h: Option<Graph>) {
    h.Some? && Same(p, o, g, h.value)
  }

  /** The tables in which the operation or its undo deals with edges. */
  function Touched(g: Graph, op: Op): (p: set<Triplet>) {
    match op
    case AddVertex(l, oid, _) => set t | t in g.tables && Dropping(g, t, l, PlaceFor(Rows(g, l), oid))
    case DeleteVertex(l, lid) => set t | t in g.tables && (Dropping(g, t, l, lid) || Recording(g, t, l, lid))
    case SetVertex(_, _, _, _) => {}
    case _ => {op.t}
  }

  /** Removing the vertex takes edges from the table. */
  predicate Dropping(g: Graph, t: Triplet, l: nat, lid: nat)
    requires t in g.tables
  {
    DropTable(g.kinds, t, g.tables[t], l, lid) != Some(g.tables[t])
  }

  /** Removing the vertex records edges of the table. */
  predicate Recording(g: Graph, t: Triplet, l: nat, lid: nat) {
    var caps := Capture(g.kinds, g.tables, l, lid);
    t in caps && caps[t] != []
  }

  // ------------------------------------------------------------------------------------
  // When an operation can be undone
  // ------------------------------------------------------------------------------------

  /** The edges of triplet t that removing vertex lid of label l takes away. */
  function DroppedEnds(k: Kinds, t: Triplet, l: nat, lid: nat): (e: A.Ends) {
    if !Reaches(k, t) then A.Nowhere
    else if t.src == l && t.dst == l then A.At(lid)
    else if t.dst == l then A.From(lid)
    else if t.src == l then A.Into(lid)
    else A.Nowhere
  }

  /** The edges of triplet t that the removal records. */
  function CapturedEnds(k: Kinds, t: Triplet, l: nat, lid: nat): (e: A.Ends) {
    if !Recordable(k, t, l) then A.Nowhere else if t.src == l then A.From(lid) else A.Into(lid)
  }

  /** Removing the vertex takes no visible edge away. */
  ghost predicate Spared(k: Kinds, tables: Tables, l: nat, lid: nat) {
    forall t | t in tables :: A.Agree(tables[t], DroppedEnds(k, t, l, lid), A.Nowhere)
  }

  /** No two of the edges that the removal records look the same. */
  predicate Distinct(k: Kinds, t: Triplet, tab: A.Table, l: nat, lid: nat) {
    Recordable(k, t, l) ==> if t.src == l then A.NoTwins(tab, lid) else A.NoTwins(A.Flip(tab), lid)
  }

  /** From this table the removal takes just what it records, and records each edge as itself. */
  ghost predicate RecordedAt(k: Kinds, t: Triplet, tab: A.Table, l: nat, lid: nat) {
    A.Agree(tab, DroppedEnds(k, t, l, lid), CapturedEnds(k, t, l, lid)) && Distinct(k, t, tab, l, lid)
  }

  ghost predicate Recorded(k: Kinds, tables: Tables, l: nat, lid: nat) {
    forall t | t in tables :: RecordedAt(k, t, tables[t], l, lid)
  }

  /** What a caller can check before the operation. */
  ghost predicate Restorable(o: Graph, g: Graph, ts: nat, op: Op) {
    match op
    case AddVertex(l, oid, props) =>
      var lid := PlaceFor(Rows(g, l), oid);
      && (lid < |Rows(g, l)| && ValidLid(o, l, lid) ==> Rows(g, l)[lid].props == props)
      && Spared(g.kinds, g.tables, l, lid)
    case DeleteVertex(l, lid) => Recorded(g.kinds, g.tables, l, lid)
    case SetVertex(_, _, _, _) => true
    case _ => op.t in g.tables ==> EdgeRestorable(g.tables[op.t], ts, op)
  }

  ghost predicate EdgeRestorable(tab: A.Table, ts: nat, op: Op)
    requires OnEdge(op)
  {
    match op
    case AddEdge(_, src, dst, data) => A.Slot(src, data, Some(ts)) !in A.List(tab.inc, dst)
    case DeleteEdge(_, e) => A.Addresses(tab, e)
    case SetEdge(_, src, dst, oe, ie, value) =>
      A.SetEdge(tab, src, dst, oe, ie, value).Some? ==>
        A.NthData(A.List(tab.out, src), oe) == A.NthData(A.List(tab.inc, dst), ie)
  }

  // ------------------------------------------------------------------------------------
  // Tables under a vertex removal and its undo
  // ------------------------------------------------------------------------------------

  lemma DropTableWithout(k: Kinds, t: Triplet, tab: A.Table, l: nat, lid: nat)
    requires A.TableOk(tab)
    ensures var d := DropTable(k, t, tab, l, lid);
      && d.Some? && A.Without(tab, d.value, DroppedEnds(k, t, l, lid)) && A.TableUntouched(tab, d.value)
      && A.TableOk(d.value)
  {
    if !Reaches(k, t) {
      A.SameRefl(tab);
    } else if t.src == l && t.dst == l {
      A.DropBothWithout(tab, lid);
    } else if t.dst == l {
      A.DropOutWithout(tab, lid);
    } else if t.src == l {
      A.DropInWithout(tab, lid);
    } else {
      A.SameRefl(tab);
    }
  }

  lemma DropTableSpares(p: set<Triplet>, k: Kinds, t: Triplet, tab: A.Table, y: A.Table, l: nat, lid: nat)
    requires A.TableOk(tab) && SameAt(p, t, tab, y) && A.Agree(tab, DroppedEnds(k, t, l, lid), A.Nowhere)
    ensures DropTable(k, t, y, l, lid) == Some(y)
  {
    if t in p { R.SameTableShows(tab, y); }
    if Reaches(k, t) && t.dst == l { R.DropOutSparesShown(tab, y, DroppedEnds(k, t, l, lid), lid); }
    if Reaches(k, t) && t.src == l { R.DropInSparesShown(tab, y, DroppedEnds(k, t, l, lid), lid); }
  }

  /** One table: replaying what was recorded restores exactly if just that was removed. */
  lemma ReviveTableExact(k: Kinds, tables: Tables, t: Triplet, y: A.Table, l: nat, lid: nat, ts: nat)
    requires t in tables && A.TableOk(tables[t])
    requires DropTable(k, t, tables[t], l, lid).Some? && A.SameTable(DropTable(k, t, tables[t], l, lid).value, y)
    ensures A.Restored(tables[t], ReviveTable(t, y, Capture(k, tables, l, lid), ts))
        <==> RecordedAt(k, t, tables[t], l, lid)
  {
    var tab, e := tables[t], DroppedEnds(k, t, l, lid);
    DropTableWithout(k, t, tab, l, lid);
    A.WithoutThenSame(tab, DropTable(k, t, tab, l, lid).value, y, e);
    if !Recordable(k, t, l) {
      A.WithoutIsSame(tab, y, e);
    } else if t.src == l {
      A.RestoreOutExact(tab, y, lid, e, ts);
    } else {
      A.RestoreInExact(tab, y, lid, e, ts);
    }
  }

  lemma DropTablesOk(k: Kinds, tables: Tables, l: nat, lid: nat)
    requires EdgesOk(tables)
    ensures DropTables(k, tables, l, lid).Some?
  {
    forall t | t in tables ensures DropTable(k, t, tables[t], l, lid).Some? {
      DropTableWithout(k, t, tables[t], l, lid);
    }
  }

  lemma DropTablesSpare(p: set<Triplet>, k: Kinds, tables: Tables, l: nat, lid: nat, y: Tables)
    requires EdgesOk(tables) && Spared(k, tables, l, lid) && SameEdges(p, tables, y)
    ensures DropTables(k, y, l, lid) == Some(y)
  {
    forall t | t in y ensures DropTable(k, t, y[t], l, lid) == Some(y[t]) {
      assert t in tables && SameAt(p, t, tables[t], y[t]);
      DropTableSpares(p, k, t, tables[t], y[t], l, lid);
    }
    NothingDropped(k, y, l, lid);
  }

  lemma NothingDropped(k: Kinds, y: Tables, l: nat, lid: nat)
    requires forall t | t in y :: DropTable(k, t, y[t], l, lid) == Some(y[t])
    ensures DropTables(k, y, l, lid) == Some(y)
  {
    assert DropTables(k, y, l, lid).Some?;
    assert DropTables(k, y, l, lid).value == y;
  }

  /** A removal that leaves the slots of a table as they were takes no edge from it. */
  lemma DropTableShows(k: Kinds, t: Triplet, tab: A.Table, l: nat, lid: nat)
    requires A.TableOk(tab) && DropTable(k, t, tab, l, lid).Some?
    requires A.SameTable(tab, DropTable(k, t, tab, l, lid).value)
    ensures A.Agree(tab, DroppedEnds(k, t, l, lid), A.Nowhere)
  {
    DropTableWithout(k, t, tab, l, lid);
    A.WithoutIsSame(tab, DropTable(k, t, tab, l, lid).value, DroppedEnds(k, t, l, lid));
  }

  lemma DropTablesShow(p: set<Triplet>, g: Graph, l: nat, lid: nat)
    requires EdgesOk(g.tables) && DropTables(g.kinds, g.tables, l, lid).Some?
    requires SameEdges(p, g.tables, DropTables(g.kinds, g.tables, l, lid).value)
    requires forall t | t in g.tables && t !in p :: !Dropping(g, t, l, lid)
    ensures Spared(g.kinds, g.tables, l, lid)
  {
    var d := DropTables(g.kinds, g.tables, l, lid).value;
    forall t | t in g.tables ensures A.Agree(g.tables[t], DroppedEnds(g.kinds, t, l, lid), A.Nowhere) {
      assert SameAt(p, t, g.tables[t], d[t]);
      A.SameRefl(g.tables[t]);
      DropTableShows(g.kinds, t, g.tables[t], l, lid);
    }
  }

  /** A table without visible slots of the vertex on the recorded side. */
  lemma {:induction false} NoneCaptured(tab: A.Table, v: nat, k: nat)
    requires A.CaptureOut(tab, v, k) == []
    ensures forall j | k <= j < |A.List(tab.out, v)| :: !A.Live(A.List(tab.out, v)[j])
    decreases |A.List(tab.out, v)| - k
  {
    if k < |A.List(tab.out, v)| { NoneCaptured(tab, v, k + 1); }
  }

  /** Where nothing is taken and nothing recorded, the removal records just what it takes. */
  lemma UntouchedRecorded(g: Graph, t: Triplet, l: nat, lid: nat)
    requires EdgesOk(g.tables) && t in g.tables && !Dropping(g, t, l, lid) && !Recording(g, t, l, lid)
    ensures RecordedAt(g.kinds, t, g.tables[t], l, lid)
  {
    var tab := g.tables[t];
    A.SameRefl(tab);
    DropTableShows(g.kinds, t, tab, l, lid);
    if Recordable(g.kinds, t, l) {
      var caps := Capture(g.kinds, g.tables, l, lid);
      assert t in caps && caps[t] == [];
      if t.src == l {
        NoneCaptured(tab, lid, 0);
      } else {
        assert A.CaptureOut(A.Flip(tab), lid, 0) == [];
        NoneCaptured(A.Flip(tab), lid, 0);
        A.FlipOk(tab);
        A.FlipAgree(A.Flip(tab), A.From(lid), A.Nowhere);
        assert A.Flip(A.Flip(tab)) == tab;
      }
    }
  }

  ghost predicate AllRestored(p: set<Triplet>, tables: Tables, y: Tables, caps: Captures, ts: nat) {
    forall t | t in tables && t in y :: RestoredAt(p, t, tables[t], ReviveTable(t, y[t], caps, ts))
  }

  ghost predicate RestoredAt(p: set<Triplet>, t: Triplet, tab: A.Table, r: Option<A.Table>) {
    r.Some? && SameAt(p, t, tab, r.value)
  }

  lemma AllRestoredIs(p: set<Triplet>, tables: Tables, y: Tables, caps: Captures, ts: nat)
    requires tables.Keys == y.Keys
    ensures AllRestored(p, tables, y, caps, ts)
            <==> ReviveTables(y, caps, ts).Some? && SameEdges(p, tables, ReviveTables(y, caps, ts).value)
  {
    if AllRestored(p, tables, y, caps, ts) {
      forall t | t in y ensures ReviveTable(t, y[t], caps, ts).Some? { assert t in tables; }
    }
  }

  lemma ReviveAtExact(p: set<Triplet>, g: Graph, t: Triplet, y: A.Table, l: nat, lid: nat, ts: nat)
    requires EdgesOk(g.tables) && t in g.tables && DropTable(g.kinds, t, g.tables[t], l, lid).Some?
    requires SameAt(p, t, DropTable(g.kinds, t, g.tables[t], l, lid).value, y)
    requires t !in p ==> !Dropping(g, t, l, lid) && !Recording(g, t, l, lid)
    ensures RestoredAt(p, t, g.tables[t], ReviveTable(t, y, Capture(g.kinds, g.tables, l, lid), ts))
            <==> RecordedAt(g.kinds, t, g.tables[t], l, lid)
  {
    if t in p {
      ReviveTableExact(g.kinds, g.tables, t, y, l, lid, ts);
    } else {
      UntouchedRecorded(g, t, l, lid);
    }
  }

  /** All tables: replaying the record of a removal restores exactly if it recorded just what it took. */
  lemma ReviveTablesExact(p: set<Triplet>, g: Graph, l: nat, lid: nat, y: Tables, ts: nat)
    requires EdgesOk(g.tables) && DropTables(g.kinds, g.tables, l, lid).Some?
    requires SameEdges(p, DropTables(g.kinds, g.tables, l, lid).value, y) && Touched(g, DeleteVertex(l, lid)) <= p
    ensures var r := ReviveTables(y, Capture(g.kinds, g.tables, l, lid), ts);
      (r.Some? && SameEdges(p, g.tables, r.value)) <==> Recorded(g.kinds, g.tables, l, lid)
  {
    var caps := Capture(g.kinds, g.tables, l, lid);
    forall t | t in g.tables
      ensures RestoredAt(p, t, g.tables[t], ReviveTable(t, y[t], caps, ts))
          <==> RecordedAt(g.kinds, t, g.tables[t], l, lid)
    {
      assert t !in p ==> t !in Touched(g, DeleteVertex(l, lid));
      assert SameAt(p, t, DropTables(g.kinds, g.tables, l, lid).value[t], y[t]);
      ReviveAtExact(p, g, t, y[t], l, lid, ts);
    }
    AllRestoredIs(p, g.tables, y, caps, ts);
  }

  // ------------------------------------------------------------------------------------
  // One operation
  // ------------------------------------------------------------------------------------

  lemma SetRowSame(o: Graph, x: map<nat, seq<VRow>>, y: map<nat, seq<VRow>>, y': map<nat, seq<VRow>>, l: nat)
    requires l in x && x.Keys == y.Keys == y'.Keys
    requires forall k | k in x && k != l :: SameRows(o, k, x[k], y[k]) && y'[k] == y[k]
    requires SameRows(o, l, x[l], y'[l])
    ensures SameVertices(o, x, y')
  {
  }

  /** A row that was added is dead again, the others are as they were. */
  lemma UnAddRow(o: Graph, l: nat, x: seq<VRow>, lid: nat, row: VRow, y: seq<VRow>)
    requires lid <= |x| && (lid < |x| ==> !x[lid].live && x[lid].oid == row.oid)
    requires lid < |x| && ValidLid(o, l, lid) ==> x[lid].props == row.props
    requires SameRows(o, l, if lid < |x| then x[lid := row] else x + [row], y)
    ensures lid < |y| && SameRows(o, l, x, y[lid := y[lid].(live := false)])
  {
    var z := if lid < |x| then x[lid := row] else x + [row];
    forall k: nat | k < |x| && k != lid
      ensures y[k].oid == x[k].oid && y[k].live == x[k].live && (ValidLid(o, l, k) ==> y[k].props == x[k].props)
    {
      assert z[k] == x[k];
    }
    assert z[lid] == row;
  }

  lemma AddVertexUndone(p: set<Triplet>, o: Graph, g: Graph, ts: nat, op: Op, h: Graph)
    requires op.AddVertex? && EdgesOk(g.tables) && Do(g, ts, op).Some? && Same(p, o, Do(g, ts, op).value.graph, h)
    requires Restorable(o, g, ts, op)
    requires Touched(g, op) <= p
    ensures Restored(p, o, g, Undone(h, ts, Do(g, ts, op).value.undo))
  {
    var s := Do(g, ts, op).value;
    var l, lid := op.l, s.undo.lid;
    DropTablesSpare(p, g.kinds, g.tables, l, lid, h.tables);
    assert SameRows(o, l, s.graph.rows[l], h.rows[l]);
    UnAddRow(o, l, g.rows[l], lid, VRow(op.oid, true, op.props), h.rows[l]);
    var d := Undone(h, ts, s.undo).value;
    SetRowSame(o, g.rows, h.rows, d.rows, l);
  }

  lemma AddVertexMisses(p: set<Triplet>, o: Graph, g: Graph, ts: nat, op: Op)
    requires op.AddVertex? && EdgesOk(g.tables) && Do(g, ts, op).Some?
    requires Touched(g, op) <= p
    requires Restored(p, o, g, Undone(Do(g, ts, op).value.graph, ts, Do(g, ts, op).value.undo))
    ensures Restorable(o, g, ts, op)
  {
    var s := Do(g, ts, op).value;
    var d := Undone(s.graph, ts, s.undo).value;
    assert SameRows(o, op.l, g.rows[op.l], d.rows[op.l]);
    DropTablesShow(p, g, op.l, s.undo.lid);
  }

  lemma UnDeleteRow(o: Graph, l: nat, x: seq<VRow>, lid: nat, y: seq<VRow>)
    requires lid < |x| && x[lid].live && SameRows(o, l, x[lid := x[lid].(live := false)], y)
    ensures lid < |y| && SameRows(o, l, x, y[lid := y[lid].(live := true)])
  {
    var z := x[lid := x[lid].(live := false)];
    assert y[lid].oid == z[lid].oid && (ValidLid(o, l, lid) ==> y[lid].props == z[lid].props);
    forall k: nat | k < |x| && k != lid
      ensures y[k].oid == x[k].oid && y[k].live == x[k].live && (ValidLid(o, l, k) ==> y[k].props == x[k].props)
    {
      assert z[k] == x[k];
    }
  }

  lemma DeleteVertexIs(g: Graph, ts: nat, l: nat, lid: nat)
    requires Do(g, ts, DeleteVertex(l, lid)).Some?
    ensures ValidLid(g, l, lid) && DropTables(g.kinds, g.tables, l, lid).Some?
    ensures Do(g, ts, DeleteVertex(l, lid)).value ==
            Step(Graph(g.rows[l := g.rows[l][lid := g.rows[l][lid].(live := false)]],
              DropTables(g.kinds, g.tables, l, lid).value, g.kinds),
                 UnDeleteVertex(l, lid, Capture(g.kinds, g.tables, l, lid)))
  {
  }

  lemma UnDeleteVertexIs(h: Graph, ts: nat, l: nat, lid: nat, caps: Captures)
    requires l in h.rows && lid < |h.rows[l]|
    ensures Undone(h, ts, UnDeleteVertex(l, lid, caps)) ==
            match ReviveTables(h.tables, caps, ts)
            case None => None
            case Some(tables) => Some(Graph(h.rows[l := h.rows[l][lid := h.rows[l][lid].(live := true)]], tables,
              h.kinds))
  {
  }

  lemma SameRowsAt(o: Graph, x: map<nat, seq<VRow>>, y: map<nat, seq<VRow>>, l: nat)
    requires SameVertices(o, x, y) && l in x
    ensures l in y && SameRows(o, l, x[l], y[l])
  {
  }

  lemma OneRowBack(o: Graph, x: map<nat, seq<VRow>>, y: map<nat, seq<VRow>>, l: nat, left: seq<VRow>, back: seq<VRow>)
    requires l in x && SameVertices(o, x[l := left], y) && SameRows(o, l, x[l], back)
    ensures SameVertices(o, x, y[l := back])
  {
    forall k | k in x && k != l ensures SameRows(o, k, x[k], y[k]) { assert x[l := left][k] == x[k]; }
  }

  lemma DeleteVertexUndone(p: set<Triplet>, o: Graph, g: Graph, ts: nat, op: Op, h: Graph)
    requires op.DeleteVertex? && EdgesOk(g.tables) && Do(g, ts, op).Some? && Same(p, o, Do(g, ts, op).value.graph, h)
    requires Restorable(o, g, ts, op)
    requires Touched(g, op) <= p
    ensures Restored(p, o, g, Undone(h, ts, Do(g, ts, op).value.undo))
  {
    var l, lid := op.l, op.lid;
    DeleteVertexIs(g, ts, l, lid);
    ReviveTablesExact(p, g, l, lid, h.tables, ts);
    var left := g.rows[l][lid := g.rows[l][lid].(live := false)];
    SameRowsAt(o, g.rows[l := left], h.rows, l);
    UnDeleteRow(o, l, g.rows[l], lid, h.rows[l]);
    UnDeleteVertexIs(h, ts, l, lid, Capture(g.kinds, g.tables, l, lid));
    OneRowBack(o, g.rows, h.rows, l, left, h.rows[l][lid := h.rows[l][lid].(live := true)]);
  }

  lemma SameEdgesRefl(p: set<Triplet>, x: Tables)
    ensures SameEdges(p, x, x)
  {
    forall t | t in x ensures SameAt(p, t, x[t], x[t]) { A.SameRefl(x[t]); }
  }

  lemma DeleteVertexMisses(p: set<Triplet>, o: Graph, g: Graph, ts: nat, op: Op)
    requires op.DeleteVertex? && EdgesOk(g.tables) && Do(g, ts, op).Some?
    requires Touched(g, op) <= p
    requires Restored(p, o, g, Undone(Do(g, ts, op).value.graph, ts, Do(g, ts, op).value.undo))
    ensures Restorable(o, g, ts, op)
  {
    var s := Do(g, ts, op).value;
    SameEdgesRefl(p, s.graph.tables);
    ReviveTablesExact(p, g, op.l, op.lid, s.graph.tables, ts);
  }

  /** One table changed, its slots as before. */
  lemma OneTableSame(p: set<Triplet>, x: Tables, y: Tables, t: Triplet, tab: A.Table)
    requires t in x && x.Keys == y.Keys
    requires (forall k | k in x && k != t :: SameAt(p, k, x[k], y[k])) && SameAt(p, t, x[t], tab)
    ensures SameEdges(p, x, y[t := tab])
  {
  }

  lemma EdgeTableUndone(tab: A.Table, ts: nat, op: Op, y: A.Table)
    requires OnEdge(op)
    requires EdgeDo(tab, ts, op).Some? && A.SameTable(EdgeDo(tab, ts, op).value.table, y) && EdgeRestorable(tab, ts, op)
    ensures A.Restored(tab, EdgeUndo(y, ts, EdgeDo(tab, ts, op).value.undo))
  {
    match op
    case AddEdge(_, src, dst, data) => A.PutEdgeUndone(tab, y, src, dst, data, ts);
    case DeleteEdge(_, e) => A.DeleteEdgeUndone(tab, y, e, ts);
    case SetEdge(_, src, dst, oe, ie, value) => A.SetEdgeUndone(tab, y, src, dst, oe, ie, value);
  }

  lemma EdgeTableMisses(tab: A.Table, ts: nat, op: Op)
    requires OnEdge(op)
    requires EdgeDo(tab, ts, op).Some?
    requires A.Restored(tab, EdgeUndo(EdgeDo(tab, ts, op).value.table, ts, EdgeDo(tab, ts, op).value.undo))
    ensures EdgeRestorable(tab, ts, op)
  {
    match op
    case AddEdge(_, src, dst, data) =>
      if A.Slot(src, data, Some(ts)) in A.List(tab.inc, dst) { A.PutEdgeMisses(tab, src, dst, data, ts); }
    case DeleteEdge(_, e) => A.DeleteEdgeMisses(tab, e, ts);
    case SetEdge(_, src, dst, oe, ie, value) =>
      A.SameRefl(A.SetEdge(tab, src, dst, oe, ie, value).value);
      A.SetEdgeUndone(tab, A.SetEdge(tab, src, dst, oe, ie, value).value, src, dst, oe, ie, value);
  }

  lemma EdgeDoIs(g: Graph, ts: nat, op: Op)
    requires OnEdge(op) && Do(g, ts, op).Some?
    ensures Exists(g, op.t) && EdgeDo(g.tables[op.t], ts, op).Some?
    ensures var s := EdgeDo(g.tables[op.t], ts, op).value;
      && Do(g, ts, op).value == Step(g.(tables := g.tables[op.t := s.table]), s.undo)
      && OfEdge(s.undo) && s.undo.t == op.t
  {
  }

  lemma EdgeUndoneIs(h: Graph, ts: nat, u: Undo)
    requires OfEdge(u) && u.t in h.tables
    ensures Undone(h, ts, u) == match EdgeUndo(h.tables[u.t], ts, u)
                                case None => None
                                case Some(tab) => Some(h.(tables := h.tables[u.t := tab]))
  {
  }

  lemma OneTableBack(p: set<Triplet>, x: Tables, y: Tables, t: Triplet, left: A.Table, back: A.Table)
    requires t in x && SameEdges(p, x[t := left], y) && SameAt(p, t, x[t], back)
    ensures SameEdges(p, x, y[t := back])
  {
    forall k | k in x && k != t ensures SameAt(p, k, x[k], y[k]) { assert x[t := left][k] == x[k]; }
    OneTableSame(p, x, y, t, back);
  }

  lemma EdgeOpUndone(p: set<Triplet>, o: Graph, g: Graph, ts: nat, op: Op, h: Graph)
    requires OnEdge(op)
    requires Do(g, ts, op).Some? && Same(p, o, Do(g, ts, op).value.graph, h) && Restorable(o, g, ts, op)
    requires Touched(g, op) <= p
    ensures Restored(p, o, g, Undone(h, ts, Do(g, ts, op).value.undo))
  {
    EdgeDoIs(g, ts, op);
    var s := EdgeDo(g.tables[op.t], ts, op).value;
    SameEdgesAt(p, g.tables[op.t := s.table], h.tables, op.t);
    EdgeTableUndone(g.tables[op.t], ts, op, h.tables[op.t]);
    var back := EdgeUndo(h.tables[op.t], ts, s.undo).value;
    EdgeUndoneIs(h, ts, s.undo);
    OneTableBack(p, g.tables, h.tables, op.t, s.table, back);
  }

  lemma SameEdgesAt(p: set<Triplet>, x: Tables, y: Tables, t: Triplet)
    requires SameEdges(p, x, y) && t in x
    ensures t in y && SameAt(p, t, x[t], y[t])
  {
  }

  lemma EdgeOpMisses(p: set<Triplet>, o: Graph, g: Graph, ts: nat, op: Op)
    requires OnEdge(op) && Do(g, ts, op).Some?
    requires Touched(g, op) <= p
    requires Restored(p, o, g, Undone(Do(g, ts, op).value.graph, ts, Do(g, ts, op).value.undo))
    ensures Restorable(o, g, ts, op)
  {
    EdgeDoIs(g, ts, op);
    var s := EdgeDo(g.tables[op.t], ts, op).value;
    var left := g.(tables := g.tables[op.t := s.table]);
    EdgeUndoneIs(left, ts, s.undo);
    SameEdgesAt(p, g.tables, Undone(left, ts, s.undo).value.tables, op.t);
    EdgeTableMisses(g.tables[op.t], ts, op);
  }

  lemma UnSetRow(o: Graph, l: nat, x: seq<VRow>, lid: nat, col: nat, value: int, y: seq<VRow>)
    requires lid < |x| && x[lid].live && col < |x[lid].props|
    requires SameRows(o, l, x[lid := x[lid].(props := x[lid].props[col := value])], y)
    ensures lid < |y| && y[lid].live
    ensures col < |y[lid].props| ==>
        SameRows(o, l, x, y[lid := y[lid].(props := y[lid].props[col := x[lid].props[col]])])
    ensures col >= |y[lid].props| ==> SameRows(o, l, x, y)
  {
    var z := x[lid := x[lid].(props := x[lid].props[col := value])];
    assert y[lid].oid == z[lid].oid && y[lid].live == z[lid].live
      && (ValidLid(o, l, lid) ==> y[lid].props == z[lid].props);
    assert z[lid].props[col := x[lid].props[col]] == x[lid].props;
    forall k: nat | k < |x| && k != lid
      ensures y[k].oid == x[k].oid && y[k].live == x[k].live && (ValidLid(o, l, k) ==> y[k].props == x[k].props)
    {
      assert z[k] == x[k];
    }
  }

  lemma SetVertexUndone(p: set<Triplet>, o: Graph, g: Graph, ts: nat, op: Op, h: Graph)
    requires op.SetVertex? && Do(g, ts, op).Some? && Same(p, o, Do(g, ts, op).value.graph, h)
    requires Touched(g, op) <= p
    ensures Restored(p, o, g, Undone(h, ts, Do(g, ts, op).value.undo))
  {
    var s := Do(g, ts, op).value;
    assert SameRows(o, op.l, s.graph.rows[op.l], h.rows[op.l]);
    UnSetRow(o, op.l, g.rows[op.l], op.lid, op.col, op.value, h.rows[op.l]);
    SetRowSame(o, g.rows, h.rows, Undone(h, ts, s.undo).value.rows, op.l);
  }

  /** Any graph that shows what the operation left behind is taken back to what was there before. */
  lemma UndoneFromAnywhere(p: set<Triplet>, o: Graph, g: Graph, ts: nat, op: Op, h: Graph)
    requires EdgesOk(g.tables) && Do(g, ts, op).Some? && Same(p, o, Do(g, ts, op).value.graph, h)
    requires Restorable(o, g, ts, op)
    requires Touched(g, op) <= p
    ensures Restored(p, o, g, Undone(h, ts, Do(g, ts, op).value.undo))
  {
    match op
    case AddVertex(_, _, _) => AddVertexUndone(p, o, g, ts, op, h);
    case DeleteVertex(_, _) => DeleteVertexUndone(p, o, g, ts, op, h);
    case SetVertex(_, _, _, _) => SetVertexUndone(p, o, g, ts, op, h);
    case _ => EdgeOpUndone(p, o, g, ts, op, h);
  }

  lemma SameReflexive(p: set<Triplet>, o: Graph, g: Graph)
    ensures Same(p, o, g, g)
  {
    SameEdgesRefl(p, g.tables);
  }

  /** An operation's undo record takes it back exactly under its condition. */
  lemma UndoExact(p: set<Triplet>, o: Graph, g: Graph, ts: nat, op: Op)
    requires EdgesOk(g.tables) && Do(g, ts, op).Some? && Touched(g, op) <= p
    ensures Restored(p, o, g, Undone(Do(g, ts, op).value.graph, ts, Do(g, ts, op).value.undo))
        <==> Restorable(o, g, ts, op)
  {
    var s := Do(g, ts, op).value;
    if Restorable(o, g, ts, op) {
      SameReflexive(p, o, s.graph);
      UndoneFromAnywhere(p, o, g, ts, op, s.graph);
    }
    if Restored(p, o, g, Undone(s.graph, ts, s.undo)) {
      match op
      case AddVertex(_, _, _) => AddVertexMisses(p, o, g, ts, op);
      case DeleteVertex(_, _) => DeleteVertexMisses(p, o, g, ts, op);
      case SetVertex(_, _, _, _) =>
      case _ => EdgeOpMisses(p, o, g, ts, op);
    }
  }
}
