/**
 * Operations that keep the database sound, the abort theorem from the start of a transaction, and
 * transactions that cannot be aborted.
 */
module Consistency {
  import opened Wrappers
  import opened Database
  import opened Restoring
  import opened Abort
  import U = Undo
  import C = Columns
  import N = Renames
  import R = Rebuild
  import A = Adjacency

  /** A new edge goes to both sides. */
  lemma PutEdgeOk(t: A.Table, src: nat, dst: nat, data: int, ts: nat)
    requires A.TableOk(t)
    ensures A.TableOk(A.PutEdge(t, src, dst, data, ts))
  {
    var p := A.PutEdge(t, src, dst, data, ts);
    forall u: nat, x: A.Slot | A.Live(x) ensures A.Balanced(p, u, x) {
      assert A.Balanced(t, u, x);
      AppendTally(A.List(t.out, src), A.Slot(dst, data, Some(ts)), x);
      AppendTally(A.List(t.inc, dst), A.Slot(src, data, Some(ts)), x.(nbr := u));
    }
  }

  lemma AppendTally(l: seq<A.Slot>, s: A.Slot, x: A.Slot)
    ensures A.Tally(l + [s], x) == A.Tally(l, x) + (if s == x then 1 else 0)
  {
  }

  /** Both sides of an edge get a new payload. */
  lemma SetEdgeOk(t: A.Table, src: nat, dst: nat, oe: nat, ie: nat, value: int)
    requires A.TableOk(t) && A.SetEdge(t, src, dst, oe, ie, value).Some?
    requires A.Mates(t, src, A.Nth(A.List(t.out, src), oe, 0).value, dst, A.Nth(A.List(t.inc, dst), ie, 0).value)
    ensures A.TableOk(A.SetEdge(t, src, dst, oe, ie, value).value)
  {
    var p := A.SetEdge(t, src, dst, oe, ie, value).value;
    forall u: nat, x: A.Slot | A.Live(x) ensures A.Balanced(p, u, x) {
      assert A.Balanced(t, u, x);
      SetTally(A.List(t.out, src), oe, value, x);
      SetTally(A.List(t.inc, dst), ie, value, x.(nbr := u));
    }
  }

  lemma SetTally(l: seq<A.Slot>, r: nat, value: int, x: A.Slot)
    requires A.Nth(l, r, 0).Some?
    ensures var s := l[A.Nth(l, r, 0).value];
      A.Tally(A.SetNth(l, r, value), x)
        == A.Tally(l, x) - (if s == x then 1 else 0) + (if s.(data := value) == x then 1 else 0)
  {
    var k := A.Nth(l, r, 0).value;
    assert multiset(l[k := l[k].(data := value)]) == multiset(l) - multiset{l[k]} + multiset{l[k].(data := value)};
  }

  // ------------------------------------------------------------------------------------
  // Transactions that keep the tables consistent
  // ------------------------------------------------------------------------------------

  /** The raw slots that the two ranks of a payload change stand for. */
  function RankCap(tab: A.Table, op: U.Op): (e: A.Cap)
    requires op.SetEdge? && A.SetEdge(tab, op.src, op.dst, op.oe, op.ie, op.value).Some?
  {
    A.Cap(op.src, op.dst, A.Nth(A.List(tab.out, op.src), op.oe, 0).value,
      A.Nth(A.List(tab.inc, op.dst), op.ie, 0).value)
  }

  /** The offsets name the two sides of one edge; a new edge has no visible double. */
  predicate Addressed(tab: A.Table, ts: nat, op: U.Op)
    requires U.OnEdge(op) && U.EdgeDo(tab, ts, op).Some?
  {
    match op
    case AddEdge(_, src, dst, data) => A.Slot(src, data, Some(ts)) !in A.List(tab.inc, dst)
    case DeleteEdge(_, e) => A.Mates(tab, e.src, e.oe, e.dst, e.ie)
    case SetEdge(_, _, _, _, _, _) =>
      var e := RankCap(tab, op);
      A.Mates(tab, e.src, e.oe, e.dst, e.ie)
  }

  lemma EdgeDoOk(tab: A.Table, ts: nat, op: U.Op)
    requires U.OnEdge(op) && A.TableOk(tab) && U.EdgeDo(tab, ts, op).Some? && Addressed(tab, ts, op)
    ensures A.TableOk(U.EdgeDo(tab, ts, op).value.table) && U.EdgeRestorable(tab, ts, op)
  {
    match op
    case AddEdge(_, src, dst, data) => PutEdgeOk(tab, src, dst, data, ts);
    case DeleteEdge(_, e) => A.DeleteKeepsOk(tab, e);
    case SetEdge(_, src, dst, oe, ie, value) => SetEdgeOk(tab, src, dst, oe, ie, value);
  }

  /** What a caller has to see to on data. */
  ghost predicate CarefulData(o: U.Graph, g: U.Graph, ts: nat, op: U.Op)
    requires U.Do(g, ts, op).Some?
  {
    if U.OnEdge(op) then U.EdgeDoIs(g, ts, op); Addressed(g.tables[op.t], ts, op)
    else U.Restorable(o, g, ts, op)
  }

  lemma DropTablesKeepOk(k: U.Kinds, tables: U.Tables, l: nat, lid: nat)
    requires U.EdgesOk(tables) && U.DropTables(k, tables, l, lid).Some?
    ensures U.EdgesOk(U.DropTables(k, tables, l, lid).value)
  {
    forall t | t in tables ensures A.TableOk(U.DropTable(k, t, tables[t], l, lid).value) {
      U.DropTableWithout(k, t, tables[t], l, lid);
    }
  }

  lemma OneTableOk(tables: U.Tables, t: Triplet, tab: A.Table)
    requires U.EdgesOk(tables) && A.TableOk(tab)
    ensures U.EdgesOk(tables[t := tab])
  {
  }

  lemma CarefulDataOk(o: U.Graph, g: U.Graph, ts: nat, op: U.Op)
    requires U.EdgesOk(g.tables) && U.Do(g, ts, op).Some? && CarefulData(o, g, ts, op)
    ensures U.EdgesOk(U.Do(g, ts, op).value.graph.tables) && U.Restorable(o, g, ts, op)
  {
    if U.OnEdge(op) {
      U.EdgeDoIs(g, ts, op);
      EdgeDoOk(g.tables[op.t], ts, op);
      OneTableOk(g.tables, op.t, U.EdgeDo(g.tables[op.t], ts, op).value.table);
    } else if op.DeleteVertex? {
      U.DeleteVertexIs(g, ts, op.l, op.lid);
      DropTablesKeepOk(g.kinds, g.tables, op.l, op.lid);
    }
  }

  // ------------------------------------------------------------------------------------
  // Soundness, step by step
  // ------------------------------------------------------------------------------------

  /** Every table of the origin is there, with at least its rows. */
  ghost predicate Grown(o: U.Graph, g: U.Graph) {
    forall l | l in o.rows :: l in g.rows && |o.rows[l]| <= |g.rows[l]|
  }

  ghost predicate Healthy(o: Db, db: Db) { Sound(o, db) && Grown(o.g, db.g) }

  /** A new type comes with columns in order. */
  ghost predicate Proper(op: Op) {
    match op
    case CreateVertexType(_, v) => C.Valid(v)
    case CreateEdgeType(_, v) => C.Valid(v)
    case _ => true
  }

  /** What a caller has to see to, operation by operation. */
  ghost predicate Careful(p: set<Triplet>, o: Db, db: Db, ts: nat, op: Op)
    requires Do(db, ts, op).Some?
  {
    Proper(op) && Plain(db, op) && (op.OnEdgeColumns? && op.t in db.ecols ==> !Throws(db.ecols[op.t], op.change))
      && if op.OnData? then CarefulData(o.g, db.g, ts, op.op) else Restorable(p, o, db, ts, op)
  }

  /** The rows keep their cells, if the origin shows them. */
  ghost predicate RowsKept(o: U.Graph, l: nat, x: seq<U.VRow>, y: seq<U.VRow>) {
    |x| <= |y| && forall k: nat | k < |y| && U.ValidLid(o, l, k) :: k < |x| && |y[k].props| == |x[k].props|
  }

  lemma DataRows(o: U.Graph, g: U.Graph, ts: nat, op: U.Op, l: nat)
    requires U.Do(g, ts, op).Some? && U.Restorable(o, g, ts, op) && Grown(o, g) && l in g.rows
    ensures var g' := U.Do(g, ts, op).value.graph; l in g'.rows && RowsKept(o, l, g.rows[l], g'.rows[l])
  {
    if U.OnEdge(op) {
      U.EdgeDoIs(g, ts, op);
    } else if op.DeleteVertex? {
      U.DeleteVertexIs(g, ts, op.l, op.lid);
    } else {
      assert l in o.rows ==> |o.rows[l]| <= |g.rows[l]|;
    }
  }

  /** Another graph over the same tables and types. */
  lemma GraphSound(o: Db, db: Db, g: U.Graph)
    requires Healthy(o, db) && U.EdgesOk(g.tables)
    requires g.rows.Keys == db.g.rows.Keys && g.tables.Keys == db.g.tables.Keys && g.kinds == db.g.kinds
    requires forall l | l in g.rows :: RowsKept(o.g, l, db.g.rows[l], g.rows[l])
    ensures Healthy(o, db.(g := g))
  {
    forall l, k: nat | l in g.rows && l in db.cols && k < |g.rows[l]| && U.ValidLid(o.g, l, k)
      ensures |g.rows[l][k].props| == db.cols[l].width
    {
      assert RowsKept(o.g, l, db.g.rows[l], g.rows[l]);
    }
    forall l | l in o.g.rows ensures l in g.rows && |o.g.rows[l]| <= |g.rows[l]| {
      assert RowsKept(o.g, l, db.g.rows[l], g.rows[l]);
    }
  }

  lemma DataSound(o: Db, db: Db, ts: nat, op: U.Op)
    requires Healthy(o, db) && DoData(db, ts, op).Some? && CarefulData(o.g, db.g, ts, op)
    ensures Healthy(o, DoData(db, ts, op).value.db)
  {
    CarefulDataOk(o.g, db.g, ts, op);
    var g := U.Do(db.g, ts, op).value.graph;
    SameKeys(db.g, ts, op);
    forall l | l in g.rows ensures RowsKept(o.g, l, db.g.rows[l], g.rows[l]) { DataRows(o.g, db.g, ts, op, l); }
    GraphSound(o, db, g);
  }

  lemma SameKeys(g: U.Graph, ts: nat, op: U.Op)
    requires U.Do(g, ts, op).Some?
    ensures var g' := U.Do(g, ts, op).value.graph;
      g'.rows.Keys == g.rows.Keys && g'.tables.Keys == g.tables.Keys && g'.kinds == g.kinds
  {
    if U.OnEdge(op) { U.EdgeDoIs(g, ts, op); } else if op.DeleteVertex? { U.DeleteVertexIs(g, ts, op.l, op.lid); }
  }

  /** One vertex type with other rows and columns. */
  lemma VertexTypeSound(o: Db, db: Db, l: nat, rows: seq<U.VRow>, v: C.VType)
    requires Healthy(o, db) && l in db.g.rows && |rows| == |db.g.rows[l]| && C.Valid(v)
    requires forall k: nat | k < |rows| && U.ValidLid(o.g, l, k) :: |rows[k].props| == v.width
    ensures Healthy(o, db.(g := db.g.(rows := db.g.rows[l := rows]), cols := db.cols[l := v]))
  {
    var d := db.(g := db.g.(rows := db.g.rows[l := rows]), cols := db.cols[l := v]);
    assert d.g.rows.Keys == db.g.rows.Keys && d.cols.Keys == db.cols.Keys;
    forall m, k: nat | m in d.g.rows && m in d.cols && k < |d.g.rows[m]| && U.ValidLid(o.g, m, k)
      ensures |d.g.rows[m][k].props| == d.cols[m].width
    {
      assert m != l ==> |db.g.rows[m][k].props| == db.cols[m].width;
    }
  }

  lemma ColumnsSound(o: Db, db: Db, l: nat, change: C.Op)
    requires Healthy(o, db) && DoColumns(db, l, change).Some? && C.Plain(db.cols[l], change)
    requires C.Restorable(db.cols[l], change)
    ensures Healthy(o, DoColumns(db, l, change).value.db)
  {
    DoColumnsIs(db, l, change);
    var d := DoColumns(db, l, change).value.db;
    C.StepValid(db.cols[l], change);
    WidthAfter(db.cols[l], change);
    forall k: nat | k < |d.g.rows[l]| && U.ValidLid(o.g, l, k) ensures |d.g.rows[l][k].props| == d.cols[l].width {
      assert |db.g.rows[l][k].props| == db.cols[l].width;
    }
    VertexTypeSound(o, db, l, d.g.rows[l], d.cols[l]);
  }

  lemma WidthAfter(v: C.VType, change: C.Op)
    requires C.Valid(v) && C.Do(v, change).Some? && C.Restorable(v, change) && !change.Set?
    ensures C.Do(v, change).value.v.width == v.width + (if Adds(v, change) then |change.news| else 0)
  {
    if change.Add? {
      C.AddUndone(v, change.news);
      C.AddedCols(v, change.news);
    }
  }

  /** One edge type with another table and other columns. */
  lemma EdgeTypeSound(o: Db, db: Db, t: Triplet, tab: A.Table, v: C.VType)
    requires Healthy(o, db) && A.TableOk(tab) && C.Valid(v)
    requires t.src == t.dst || (t.src in db.g.rows && t.dst in db.g.rows)
    ensures Healthy(o, db.(g := db.g.(tables := db.g.tables[t := tab]), ecols := db.ecols[t := v]))
  {
    var d := db.(g := db.g.(tables := db.g.tables[t := tab]), ecols := db.ecols[t := v]);
    OneTableOk(db.g.tables, t, tab);
    assert d.g.tables.Keys == db.g.tables.Keys + {t} == d.ecols.Keys;
    assert Filled(o, d) by {
      forall m, k: nat | m in d.g.rows && m in d.cols && k < |d.g.rows[m]| && U.ValidLid(o.g, m, k)
        ensures |d.g.rows[m][k].props| == d.cols[m].width
      {
        assert |db.g.rows[m][k].props| == db.cols[m].width;
      }
    }
  }

  lemma EdgeColumnsSound(o: Db, db: Db, t: Triplet, change: C.Op)
    requires Healthy(o, db) && DoEdgeColumns(db, t, change).Some?
    requires C.Plain(db.ecols[t], change) && C.Restorable(db.ecols[t], change) && !Throws(db.ecols[t], change)
    ensures Healthy(o, DoEdgeColumns(db, t, change).value.db)
  {
    DoEdgeColumnsIs(db, t, change);
    var d := DoEdgeColumns(db, t, change).value.db;
    C.StepValid(db.ecols[t], change);
    R.RebuildOk(db.g.tables[t]);
    EdgeTypeSound(o, db, t, d.g.tables[t], d.ecols[t]);
  }

  lemma NoEdgesOk()
    ensures A.TableOk(A.Table(map[], map[]))
  {
    var none := A.Table(map[], map[]);
    forall u: nat, x: A.Slot | A.Live(x) ensures A.Balanced(none, u, x) { }
  }

  /** Other tombstones. */
  lemma KindsSound(o: Db, db: Db, k: U.Kinds)
    requires Healthy(o, db) && k.valid <= db.g.rows.Keys && k.soft <= db.g.tables.Keys
    ensures Healthy(o, db.(g := db.g.(kinds := k)))
  {
  }

  lemma CreateVertexSound(o: Db, db: Db, l: nat, v: C.VType)
    requires Healthy(o, db) && C.Valid(v) && l !in db.g.rows && l !in db.g.kinds.valid
    ensures Healthy(o, DoType(db, CreateVertexType(l, v)).value.db)
  {
    assert l !in o.g.rows;
    var d := db.(g := db.g.(rows := db.g.rows[l := []]), cols := db.cols[l := v]);
    assert d.g.rows.Keys == db.g.rows.Keys + {l} == d.cols.Keys;
    assert Healthy(o, d);
    KindsSound(o, d, d.g.kinds.(valid := d.g.kinds.valid + {l}));
  }

  lemma TypeSound(o: Db, db: Db, op: Op)
    requires Healthy(o, db) && DoType(db, op).Some? && Proper(op) && (op.CreateVertexType? ==> op.l !in db.g.rows)
    ensures Healthy(o, DoType(db, op).value.db)
  {
    match op
    case CreateVertexType(l, v) => CreateVertexSound(o, db, l, v);
    case CreateEdgeType(t, v) =>
      NoEdgesOk();
      EdgeTypeSound(o, db, t, A.Table(map[], map[]), v);
    case DropVertexType(l) => KindsSound(o, db, db.g.kinds.(valid := db.g.kinds.valid - {l}));
    case DropEdgeType(t) => KindsSound(o, db, db.g.kinds.(soft := db.g.kinds.soft + {t}));
  }

  /** A careful operation is restorable and leaves a sound database. */
  lemma CarefulKeepsSound(p: set<Triplet>, o: Db, db: Db, ts: nat, op: Op)
    requires Healthy(o, db) && Do(db, ts, op).Some? && Careful(p, o, db, ts, op)
    ensures Healthy(o, Do(db, ts, op).value.db) && Restorable(p, o, db, ts, op)
  {
    if op.OnData? {
      CarefulDataOk(o.g, db.g, ts, op.op);
      DataSound(o, db, ts, op.op);
    } else if op.OnColumns? {
      DoColumnsIs(db, op.l, op.change);
      ColumnsSound(o, db, op.l, op.change);
    } else if op.OnEdgeColumns? {
      DoEdgeColumnsIs(db, op.t, op.change);
      EdgeColumnsSound(o, db, op.t, op.change);
    } else {
      DoTypeIs(db, ts, op);
      TypeSound(o, db, op);
    }
  }

  // ------------------------------------------------------------------------------------
  // From the start of a transaction
  // ------------------------------------------------------------------------------------

  ghost predicate AllCareful(db: Db, ts: nat, ops: seq<Op>) {
    forall k | 0 <= k < |ops| :: CarefulAt(db, ts, ops, k)
  }

  ghost predicate CarefulAt(db: Db, ts: nat, ops: seq<Op>, k: nat)
    requires k < |ops|
  {
    var h := Play(db, ts, ops[..k]).db;
    Do(h, ts, ops[k]).Some? ==> Careful(OnRecord(db, ts, ops[..k]), db, h, ts, ops[k])
  }

  /** Every row has a cell for every column. */
  ghost predicate Begun(db: Db) { Sound(db, db) }

  lemma {:induction false} CarefulRun(db: Db, ts: nat, ops: seq<Op>, n: nat)
    requires Begun(db) && AllCareful(db, ts, ops) && n <= |ops|
    ensures Healthy(db, Play(db, ts, ops[..n]).db)
    ensures n < |ops| ==> RestorableAt(db, ts, ops, n)
  {
    if 0 < n {
      CarefulRun(db, ts, ops, n - 1);
      CarefulNext(db, ts, ops, n - 1);
    }
    if n < |ops| && Do(Play(db, ts, ops[..n]).db, ts, ops[n]).Some? {
      assert CarefulAt(db, ts, ops, n);
      CarefulKeepsSound(OnRecord(db, ts, ops[..n]), db, Play(db, ts, ops[..n]).db, ts, ops[n]);
    }
  }

  lemma CarefulNext(db: Db, ts: nat, ops: seq<Op>, k: nat)
    requires k < |ops| && AllCareful(db, ts, ops) && Healthy(db, Play(db, ts, ops[..k]).db)
    ensures Healthy(db, Play(db, ts, ops[..k + 1]).db)
  {
    var h := Play(db, ts, ops[..k]).db;
    assert ops[..k + 1][..k] == ops[..k] && ops[..k + 1][k] == ops[k];
    if Do(h, ts, ops[k]).Some? {
      assert CarefulAt(db, ts, ops, k);
      CarefulKeepsSound(OnRecord(db, ts, ops[..k]), db, h, ts, ops[k]);
    }
  }

  /** On a sound database, aborting any sequence of careful operations shows the database it began on. */
  lemma CarefulAbortRestores(db: Db, ts: nat, ops: seq<Op>)
    requires Begun(db) && AllCareful(db, ts, ops)
    ensures Restored({}, db, db, Revert(Play(db, ts, ops).db, ts, Play(db, ts, ops).undos))
    ensures ShowsSame(db, Revert(Play(db, ts, ops).db, ts, Play(db, ts, ops).undos).value)
  {
    forall k | 0 <= k < |ops| ensures RestorableAt(db, ts, ops, k) { CarefulRun(db, ts, ops, k); }
    AbortRestores(db, ts, ops);
    SameShows(db, Revert(Play(db, ts, ops).db, ts, Play(db, ts, ops).undos).value);
  }
}
