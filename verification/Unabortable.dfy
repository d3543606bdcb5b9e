/**
 * Transactions that an abort does not take back: where the conditions of the undo records fail.
 */
module Unabortable {
  import opened Wrappers
  import opened Database
  import opened Abort
  import opened Consistency
  import Restoring
  import U = Undo
  import C = Columns
  import N = Renames
  import R = Rebuild
  import A = Adjacency

  // ------------------------------------------------------------------------------------
  // Single operations
  // ------------------------------------------------------------------------------------

  /** The undo record does not bring the graph back, not even in the tables the operation deals with. */
  ghost predicate Misses(o: U.Graph, g: U.Graph, ts: nat, op: U.Op) {
    U.Do(g, ts, op).Some? &&
    var s := U.Do(g, ts, op).value;
    !U.Restored(U.Touched(g, op), o, g, U.Undone(s.graph, ts, s.undo))
  }

  /** A removed vertex with a visible edge to another label, at a different lid, cannot be brought back. */
  lemma EdgeToOtherLabelBlocksAbort(o: U.Graph, g: U.Graph, ts: nat, l: nat, lid: nat, t: Triplet, j: nat)
    requires U.EdgesOk(g.tables) && U.Do(g, ts, U.DeleteVertex(l, lid)).Some?
    requires U.Exists(g, t) && t.src == l != t.dst && j < |A.List(g.tables[t].out, lid)|
    requires A.Live(A.List(g.tables[t].out, lid)[j]) && A.List(g.tables[t].out, lid)[j].nbr != lid
    ensures Misses(o, g, ts, U.DeleteVertex(l, lid))
  {
    var op := U.DeleteVertex(l, lid);
    U.UndoExact(U.Touched(g, op), o, g, ts, op);
    assert A.Hits(A.From(lid), lid, A.List(g.tables[t].out, lid)[j].nbr);
    assert !U.RecordedAt(g.kinds, t, g.tables[t], l, lid);
  }

  /** Incoming edges from the vertex's own label are removed but not recorded. */
  lemma EdgeFromOwnLabelIsLost(o: U.Graph, g: U.Graph, ts: nat, l: nat, lid: nat, t: Triplet, u: nat, j: nat)
    requires U.EdgesOk(g.tables) && U.Do(g, ts, U.DeleteVertex(l, lid)).Some?
    requires U.Exists(g, t) && t.src == l == t.dst && u != lid && j < |A.List(g.tables[t].out, u)|
    requires A.Live(A.List(g.tables[t].out, u)[j]) && A.List(g.tables[t].out, u)[j].nbr == lid
    ensures Misses(o, g, ts, U.DeleteVertex(l, lid))
  {
    var op := U.DeleteVertex(l, lid);
    U.UndoExact(U.Touched(g, op), o, g, ts, op);
    assert A.Hits(A.At(lid), u, A.List(g.tables[t].out, u)[j].nbr);
    assert !U.RecordedAt(g.kinds, t, g.tables[t], l, lid);
  }

  /** Undoing a new vertex takes the edges of the vertex with the same lid in another label. */
  lemma NewVertexUndoTakesEdges(o: U.Graph, g: U.Graph, ts: nat, op: U.Op, t: Triplet, j: nat)
    requires U.EdgesOk(g.tables) && op.AddVertex? && U.Do(g, ts, op).Some? && t in g.tables && U.Reaches(g.kinds, t)
    requires var lid := U.PlaceFor(U.Rows(g, op.l), op.oid);
      t.dst == op.l != t.src && j < |A.List(g.tables[t].out, lid)| && A.Live(A.List(g.tables[t].out, lid)[j])
    ensures Misses(o, g, ts, op)
  {
    var lid := U.PlaceFor(U.Rows(g, op.l), op.oid);
    U.UndoExact(U.Touched(g, op), o, g, ts, op);
    assert A.Hits(A.From(lid), lid, A.List(g.tables[t].out, lid)[j].nbr);
    assert !A.Agree(g.tables[t], U.DroppedEnds(g.kinds, t, op.l, lid), A.Nowhere);
  }

  function OneEdge(): (tab: A.Table) { A.PutEdge(A.Table(map[], map[]), 0, 1, 5, 1) }

  lemma OneEdgeOk()
    ensures A.TableOk(OneEdge())
  {
    NoEdgesOk();
    PutEdgeOk(A.Table(map[], map[]), 0, 1, 5, 1);
  }

  /** One vertex of label 0 with an edge to the second vertex of label 1. */
  function TwoLabels(): (g: U.Graph) {
    U.Graph(map[0 := [U.VRow(7, true, [])], 1 := [U.VRow(8, true, []), U.VRow(9, true, [])]],
            map[Triplet(0, 1, 0) := OneEdge()], U.Kinds({0, 1}, {}))
  }

  lemma RemovalCannotBeAborted()
    ensures U.EdgesOk(TwoLabels().tables) && Misses(TwoLabels(), TwoLabels(), 3, U.DeleteVertex(0, 0))
  {
    var g := TwoLabels();
    OneEdgeOk();
    U.DropTablesOk(g.kinds, g.tables, 0, 0);
    assert A.List(OneEdge().out, 0) == [A.Slot(1, 5, Some(1))];
    EdgeToOtherLabelBlocksAbort(g, g, 3, 0, 0, Triplet(0, 1, 0), 0);
  }

  /** One vertex with two edges that look the same, as one transaction can add them. */
  function Parallel(): (g: U.Graph) {
    U.Graph(map[0 := [U.VRow(7, true, []), U.VRow(8, true, [])]],
            map[Triplet(0, 0, 0) := A.PutEdge(OneEdge(), 0, 1, 5, 1)], U.Kinds({0}, {}))
  }

  lemma ParallelOk()
    ensures U.EdgesOk(Parallel().tables) && !U.Recorded(Parallel().kinds, Parallel().tables, 0, 0)
  {
    OneEdgeOk();
    PutEdgeOk(OneEdge(), 0, 1, 5, 1);
    var tab := A.PutEdge(OneEdge(), 0, 1, 5, 1);
    var l := A.List(tab.out, 0);
    assert l == [A.Slot(1, 5, Some(1)), A.Slot(1, 5, Some(1))];
    assert l[0] == l[1] && A.Live(l[0]) && A.Live(l[1]);
    assert !A.NoDoubles(l);
    var g, t := Parallel(), Triplet(0, 0, 0);
    assert t in g.tables && g.tables[t] == tab && !U.RecordedAt(g.kinds, t, g.tables[t], 0, 0);
  }

  /** Both edges are recorded with the same incoming slot, so undoing the removal throws. */
  lemma ParallelEdgesBlockAbort()
    ensures U.EdgesOk(Parallel().tables) && Misses(Parallel(), Parallel(), 3, U.DeleteVertex(0, 0))
  {
    var g := Parallel();
    ParallelOk();
    U.DropTablesOk(g.kinds, g.tables, 0, 0);
    U.UndoExact(U.Touched(g, U.DeleteVertex(0, 0)), g, g, 3, U.DeleteVertex(0, 0));
  }

  // ------------------------------------------------------------------------------------
  // Operations of different kinds
  // ------------------------------------------------------------------------------------

  /** Two operations that are both carried out and both leave a record. */
  lemma PlayTwo(db: Db, ts: nat, a: Op, b: Op)
    requires Do(db, ts, a).Some? && Do(db, ts, a).value.undo.Some?
    requires Do(Do(db, ts, a).value.db, ts, b).Some?
    ensures var s := Do(db, ts, a).value;
      var r := Do(s.db, ts, b).value;
      Play(db, ts, [a, b]) == Txn(r.db, Push([s.undo.value], r.undo))
  {
    var ops := [a, b];
    assert ops[..1] == [a] && [a][..0] == [];
    assert Play(db, ts, []) == Txn(db, []);
    assert Play(db, ts, [a]) == Txn(Do(db, ts, a).value.db, [] + [Do(db, ts, a).value.undo.value]);
  }

  lemma RevertOne(db: Db, ts: nat, a: Undo)
    ensures Revert(db, ts, [a]) == Undone(db, ts, a)
  {
    assert [a][..0] == [];
    assert Undone(db, ts, a).Some? ==> Revert(Undone(db, ts, a).value, ts, []) == Undone(db, ts, a);
  }

  /** Aborting two operations, the second one first. */
  lemma AbortTwo(db: Db, ts: nat, a: Op, b: Op, s: Step, r: Step)
    requires Do(db, ts, a) == Some(s) && Do(s.db, ts, b) == Some(r) && s.undo.Some? && r.undo.Some?
    ensures var x := Play(db, ts, [a, b]);
      Revert(x.db, ts, x.undos)
      == match Undone(r.db, ts, r.undo.value) case None => None case Some(h) => Undone(h, ts, s.undo.value)
  {
    PlayTwo(db, ts, a, b);
    var undos := [s.undo.value] + [r.undo.value];
    assert undos[..1] == [s.undo.value] && undos[1] == r.undo.value;
    var h := Undone(r.db, ts, r.undo.value);
    if h.Some? { RevertOne(h.value, ts, s.undo.value); }
  }

  /** A dropped vertex type created again: the drop can no longer be undone. */
  lemma RecreatedTypeBlocksAbort(db: Db, ts: nat, l: nat, v: C.VType)
    requires l in db.g.kinds.valid && l in db.g.rows
    ensures var x := Play(db, ts, [DropVertexType(l), CreateVertexType(l, v)]); Revert(x.db, ts, x.undos).None?
  {
    PlayTwo(db, ts, DropVertexType(l), CreateVertexType(l, v));
    assert [UnDropVertexType(l)][..0] == [];
  }

  lemma AllDead(tab: A.Table, d: A.Table, lid: nat, j: nat)
    requires A.Without(tab, d, A.At(lid)) && A.TableUntouched(tab, d)
    requires j < |A.List(tab.out, lid)| && A.Live(A.List(tab.out, lid)[j])
    ensures !R.Shows(tab, d)
  {
    var x, y := A.List(tab.out, lid), A.List(d.out, lid);
    assert A.Untouched(x, y);
    forall k | 0 <= k < |y| ensures !A.Live(y[k]) { assert A.Hits(A.At(lid), lid, x[k].nbr); }
    R.NothingSeen(x);
    R.NothingSeen(y);
    assert |multiset(R.Neighbours(x))| == |R.Neighbours(x)|;
  }

  /** The edges of a triplet with a tombstone go with the vertex, but are not recorded. */
  lemma UnrecordedEdges(g: U.Graph, ts: nat, l: nat, lid: nat, t: Triplet, j: nat)
    requires U.EdgesOk(g.tables) && t in g.tables && t in g.kinds.soft && t.src == l == t.dst
    requires l in g.kinds.valid && U.ValidLid(g, l, lid)
    requires j < |A.List(g.tables[t].out, lid)| && A.Live(A.List(g.tables[t].out, lid)[j])
    ensures U.Do(g, ts, U.DeleteVertex(l, lid)).Some?
    ensures var s := U.Do(g, ts, U.DeleteVertex(l, lid)).value;
      var r := U.Undone(s.graph, ts, s.undo);
      r.Some? ==> t in r.value.tables && !R.Shows(g.tables[t], r.value.tables[t])
  {
    U.DropTablesOk(g.kinds, g.tables, l, lid);
    U.DeleteVertexIs(g, ts, l, lid);
    U.DropTableWithout(g.kinds, t, g.tables[t], l, lid);
    AllDead(g.tables[t], U.DropTable(g.kinds, t, g.tables[t], l, lid).value, lid, j);
    var s := U.Do(g, ts, U.DeleteVertex(l, lid)).value;
    U.UnDeleteVertexIs(s.graph, ts, l, lid, U.Capture(g.kinds, g.tables, l, lid));
  }

  lemma DropEdgeTypeIs(db: Db, ts: nat, t: Triplet)
    requires U.Exists(db.g, t)
    ensures Do(db, ts, DropEdgeType(t)) ==
            Some(Step(db.(g := db.g.(kinds := db.g.kinds.(soft := db.g.kinds.soft + {t}))), Some(UnDropEdgeType(t))))
  {
  }

  lemma DeleteVertexIs(db: Db, ts: nat, l: nat, lid: nat)
    requires U.Do(db.g, ts, U.DeleteVertex(l, lid)).Some?
    ensures var d := U.Do(db.g, ts, U.DeleteVertex(l, lid)).value;
      Do(db, ts, OnData(U.DeleteVertex(l, lid))) == Some(Step(db.(g := d.graph), Some(OfData(d.undo))))
  {
  }

  /** Dropping an edge type, then a vertex with edges of that type: abort brings the type back without them. */
  lemma DroppedEdgeTypeLosesEdges(db: Db, ts: nat, l: nat, lid: nat, t: Triplet, j: nat)
    requires Begun(db) && U.Exists(db.g, t) && t.src == l == t.dst && U.ValidLid(db.g, l, lid)
    requires j < |A.List(db.g.tables[t].out, lid)| && A.Live(A.List(db.g.tables[t].out, lid)[j])
    ensures var x := Play(db, ts, [DropEdgeType(t), OnData(U.DeleteVertex(l, lid))]);
      !Restored({}, db, db, Revert(x.db, ts, x.undos))
  {
    DropEdgeTypeIs(db, ts, t);
    var s := Do(db, ts, DropEdgeType(t)).value;
    UnrecordedEdges(s.db.g, ts, l, lid, t, j);
    DeleteVertexIs(s.db, ts, l, lid);
    var r := Do(s.db, ts, OnData(U.DeleteVertex(l, lid))).value;
    AbortTwo(db, ts, DropEdgeType(t), OnData(U.DeleteVertex(l, lid)), s, r);
    EdgesLost(db, ts, t, r.db, r.undo.value.u);
  }

  lemma EdgesLost(db: Db, ts: nat, t: Triplet, x: Db, u: U.Undo)
    requires t in db.g.tables
    requires var r := U.Undone(x.g, ts, u);
      r.Some? ==> t in r.value.tables && !R.Shows(db.g.tables[t], r.value.tables[t])
    ensures !Restored({}, db, db,
        match Undone(x, ts, OfData(u)) case None => None case Some(h) => Undone(h, ts, UnDropEdgeType(t)))
  {
    var h := Undone(x, ts, OfData(u));
    if h.Some? && Undone(h.value, ts, UnDropEdgeType(t)).Some? {
      var back := Undone(h.value, ts, UnDropEdgeType(t)).value;
      assert back.g.tables == h.value.g.tables;
      if U.SameEdges({}, db.g.tables, back.g.tables) { U.SameEdgesAt({}, db.g.tables, back.g.tables, t); }
    }
  }

  /** A deleted slot at the end of its list is out of range in the rebuilt one. */
  lemma SlotGone(tab: A.Table, e: A.Cap, ts: nat)
    requires A.DeleteEdge(tab, e).Some? && e.oe + 1 == |A.List(tab.out, e.src)|
    ensures A.RevertDeleteEdge(R.Rebuild(A.DeleteEdge(tab, e).value), e, ts).None?
    ensures A.RevertDeleteEdge(R.Rebuild(R.Rebuild(A.DeleteEdge(tab, e).value)), e, ts).None?
  {
    var d := A.DeleteEdge(tab, e).value;
    var l := A.List(d.out, e.src);
    R.RebuildOut(d, e.src);
    R.RebuildOut(R.Rebuild(d), e.src);
    R.SqueezeTwice(l);
    R.SqueezeSize(l);
    assert !A.Live(l[e.oe]);
  }

  function AddedTable(db: Db, t: Triplet, news: seq<(string, N.Body)>): (r: A.Table)
    requires t in db.ecols && t in db.g.tables
  {
    if ExportFails(db.ecols[t], news) then db.g.tables[t] else R.Rebuild(db.g.tables[t])
  }

  lemma AddEdgeColumnsIs(db: Db, t: Triplet, news: seq<(string, N.Body)>)
    requires U.Exists(db.g, t) && t in db.ecols && C.Valid(db.ecols[t])
    requires Bundled(db.ecols[t]) && news != [] && C.Fresh(db.ecols[t], news)
    ensures DoEdgeColumns(db, t, C.Add(news, true)) ==
            Some(Step(db.(g := db.g.(tables := db.g.tables[t := AddedTable(db, t, news)]),
                          ecols := db.ecols[t := C.AddAll(db.ecols[t], news)]),
                      Some(OfEdgeColumns(t, C.UnAdd(C.Names(news))))))
    ensures C.TryDrop(C.AddAll(db.ecols[t], news), C.Names(news)) == Some(db.ecols[t]) && C.Names(news) != []
  {
    C.AddUndone(db.ecols[t], news);
    assert |C.Names(news)| == |news|;
    assert !C.Conflict(db.ecols[t], news);
    assert RebuildsNow(db.ecols[t], C.Add(news, true)) == !ExportFails(db.ecols[t], news);
  }

  lemma DeleteEdgeIs(db: Db, ts: nat, t: Triplet, e: A.Cap)
    requires U.Exists(db.g, t) && A.DeleteEdge(db.g.tables[t], e).Some?
    ensures Do(db, ts, OnData(U.DeleteEdge(t, e))) ==
            Some(Step(db.(g := db.g.(tables := db.g.tables[t := A.DeleteEdge(db.g.tables[t], e).value])),
                      Some(OfData(U.UnDeleteEdge(t, e)))))
  {
  }

  lemma UnDeleteEdgeThrows(h: Db, ts: nat, t: Triplet, e: A.Cap)
    requires t in h.g.tables && A.RevertDeleteEdge(h.g.tables[t], e, ts).None?
    ensures Undone(h, ts, OfData(U.UnDeleteEdge(t, e))).None?
  {
  }

  /** Taking the new columns away again rebuilds the lists, once more if they were rebuilt before. */
  lemma RebuiltTwice(db: Db, ts: nat, t: Triplet, news: seq<(string, N.Body)>) returns (r: Step, h: Db)
    requires U.Exists(db.g, t) && t in db.ecols && C.Valid(db.ecols[t])
    requires Bundled(db.ecols[t]) && news != [] && C.Fresh(db.ecols[t], news)
    ensures Do(db, ts, OnEdgeColumns(t, C.Add(news, true))) == Some(r) && r.undo.Some?
    ensures Undone(r.db, ts, r.undo.value) == Some(h)
    ensures t in h.g.tables && h.g.tables[t] == R.Rebuild(AddedTable(db, t, news))
  {
    AddEdgeColumnsIs(db, t, news);
    r := DoEdgeColumns(db, t, C.Add(news, true)).value;
    Restoring.UndoEdgeColumnsIs(r.db, t, C.UnAdd(C.Names(news)), db.ecols[t]);
    h := UndoEdgeColumns(r.db, t, C.UnAdd(C.Names(news))).value;
  }

  /** Deleting an edge, then giving its type another property: the lists are rebuilt and the abort throws. */
  lemma RebuildBlocksAbort(db: Db, ts: nat, t: Triplet, e: A.Cap, news: seq<(string, N.Body)>)
    requires Begun(db) && U.Exists(db.g, t) && A.DeleteEdge(db.g.tables[t], e).Some?
    requires e.oe + 1 == |A.List(db.g.tables[t].out, e.src)|
    requires Bundled(db.ecols[t]) && news != [] && C.Fresh(db.ecols[t], news)
    ensures var x := Play(db, ts, [OnData(U.DeleteEdge(t, e)), OnEdgeColumns(t, C.Add(news, true))]);
      Revert(x.db, ts, x.undos).None?
  {
    DeleteEdgeIs(db, ts, t, e);
    var s := Do(db, ts, OnData(U.DeleteEdge(t, e))).value;
    var r, h := RebuiltTwice(s.db, ts, t, news);
    AbortTwo(db, ts, OnData(U.DeleteEdge(t, e)), OnEdgeColumns(t, C.Add(news, true)), s, r);
    SlotGone(db.g.tables[t], e, ts);
    UnDeleteEdgeThrows(h, ts, t, e);
  }

  // ------------------------------------------------------------------------------------
  // Records that stay
  // ------------------------------------------------------------------------------------

  lemma AbortOne(db: Db, ts: nat, a: Op, s: Step)
    requires Do(db, ts, a) == Some(s) && s.undo.Some?
    ensures var x := Play(db, ts, [a]); Revert(x.db, ts, x.undos) == Undone(s.db, ts, s.undo.value)
  {
    assert [a][..0] == [] && Play(db, ts, []) == Txn(db, []);
    assert [] + [s.undo.value] == [s.undo.value];
    RevertOne(s.db, ts, s.undo.value);
  }

  /** A tolerated rename of an unknown column: nothing is renamed, and the record stays. */
  lemma ToleratedIs(db: Db, ts: nat, l: nat, u: string, n: string)
    requires Begun(db) && l in db.g.kinds.valid && l in db.cols && !C.HasInternal(db.cols[l], u)
    ensures Do(db, ts, OnColumns(l, C.Rename([N.Pair(u, n)], false)))
            == Some(Step(db, Some(OfColumns(l, C.UnRename([N.Pair(u, n)])))))
  {
    var v, ps := db.cols[l], [N.Pair(u, n)];
    assert !C.Has(v, ps[0].old_);
    assert C.TryRename(v, ps).None?;
    assert db.g.rows[l := db.g.rows[l]] == db.g.rows && db.cols[l := v] == db.cols;
  }

  /** The abort throws if the new name is unknown too. */
  lemma ToleratedRenameBlocksAbort(db: Db, ts: nat, l: nat, u: string, n: string)
    requires Begun(db) && l in db.g.kinds.valid && l in db.cols
    requires !C.HasInternal(db.cols[l], u) && !C.HasInternal(db.cols[l], n)
    ensures var x := Play(db, ts, [OnColumns(l, C.Rename([N.Pair(u, n)], false))]); Revert(x.db, ts, x.undos).None?
  {
    var ps := [N.Pair(u, n)];
    ToleratedIs(db, ts, l, u, n);
    AbortOne(db, ts, OnColumns(l, C.Rename(ps, false)), Step(db, Some(OfColumns(l, C.UnRename(ps)))));
    assert !C.Has(db.cols[l], N.Swap(ps)[0].old_);
  }

  /** If the new name is that of another column, the abort renames that column. */
  lemma ToleratedRenameMovesColumn(db: Db, ts: nat, l: nat, u: string, n: string)
    requires Begun(db) && l in db.g.kinds.valid && l in db.cols && !C.HasInternal(db.cols[l], u)
    requires n in db.cols[l].ids && C.Has(db.cols[l], n)
    ensures var x := Play(db, ts, [OnColumns(l, C.Rename([N.Pair(u, n)], false))]);
      var r := Revert(x.db, ts, x.undos);
      r.Some? && l in r.value.cols && n !in r.value.cols[l].ids && u in r.value.cols[l].ids
  {
    var v, ps := db.cols[l], [N.Pair(u, n)];
    ToleratedIs(db, ts, l, u, n);
    AbortOne(db, ts, OnColumns(l, C.Rename(ps, false)), Step(db, Some(OfColumns(l, C.UnRename(ps)))));
    C.FindIs(v.cols, v.ids, u);
    assert N.MoveAll(v.ids, N.Swap(ps), 0) == v.ids;
    assert N.MoveAll(v.ids, N.Swap(ps), 1) == N.Move(v.ids, N.Pair(n, u));
    assert C.Has(v, N.Swap(ps)[0].old_);
  }

  /** Deleting an edge column: marked, and recorded. */
  lemma DeleteEdgeColumnIs(db: Db, ts: nat, t: Triplet, a: string)
    requires Begun(db) && U.Exists(db.g, t) && a in db.ecols[t].ids && C.Has(db.ecols[t], a)
    requires Some(a) != db.ecols[t].pk
    ensures var v := db.ecols[t].(cols := C.SetDead(db.ecols[t].cols, [a], true));
      Do(db, ts, OnEdgeColumns(t, C.Delete([a])))
      == Some(Step(db.(ecols := db.ecols[t := v]), Some(OfEdgeColumns(t, C.UnDelete([a])))))
    ensures var v := db.ecols[t].(cols := C.SetDead(db.ecols[t].cols, [a], true));
      C.Valid(v) && !C.Has(v, a) && C.HasInternal(v, a)
  {
    var v := db.ecols[t];
    assert C.Has(v, [a][0]);
    assert db.g.tables[t := db.g.tables[t]] == db.g.tables;
    C.SetDeadIs(v.cols, v.ids, [a], true);
    C.FindIs(C.SetDead(v.cols, [a], true), v.ids, a);
  }

  /** Adding the name again throws, and its record stays: undoing it removes the column from the table. */
  lemma ReaddIs(db: Db, ts: nat, t: Triplet, a: string, body: N.Body) returns (r: Step)
    requires U.Exists(db.g, t) && t in db.ecols && C.Valid(db.ecols[t]) && a in db.ecols[t].ids
    requires !C.Has(db.ecols[t], a)
    ensures Do(db, ts, OnEdgeColumns(t, C.Add([(a, body)], true))) == Some(r) && r.undo.Some?
    ensures var h := Undone(r.db, ts, r.undo.value); h.Some? ==> t in h.value.ecols && a !in h.value.ecols[t].ids
  {
    var v, news := db.ecols[t], [(a, body)];
    assert news[0].0 == a && !C.Fresh(v, news);
    assert !C.Conflict(v, news);
    r := DoEdgeColumns(db, t, C.Add(news, true)).value;
    var w := Thrown(v, news);
    C.IdsFit(v.cols, v.ids);
    C.DropAllSlack(w, C.Names(news));
    assert C.Names(news)[0] == a;
  }

  /** Deleting an edge column and adding its name again: the abort loses the column. */
  lemma ReaddedEdgeColumnIsLost(db: Db, ts: nat, t: Triplet, a: string, body: N.Body)
    requires Begun(db) && U.Exists(db.g, t) && a in db.ecols[t].ids && C.Has(db.ecols[t], a)
    requires Some(a) != db.ecols[t].pk
    ensures var x := Play(db, ts, [OnEdgeColumns(t, C.Delete([a])), OnEdgeColumns(t, C.Add([(a, body)], true))]);
      !Restored({}, db, db, Revert(x.db, ts, x.undos))
  {
    DeleteEdgeColumnIs(db, ts, t, a);
    var s := Do(db, ts, OnEdgeColumns(t, C.Delete([a]))).value;
    var r := ReaddIs(s.db, ts, t, a, body);
    AbortTwo(db, ts, OnEdgeColumns(t, C.Delete([a])), OnEdgeColumns(t, C.Add([(a, body)], true)), s, r);
    var h := Undone(r.db, ts, r.undo.value);
    if h.Some? { ReviveKeepsIds(h.value, ts, t, [a], a); }
  }

  lemma ReviveKeepsIds(h: Db, ts: nat, t: Triplet, names: seq<string>, a: string)
    requires t in h.ecols && a !in h.ecols[t].ids
    ensures var r := Undone(h, ts, OfEdgeColumns(t, C.UnDelete(names)));
      r.Some? ==> t in r.value.ecols && a !in r.value.ecols[t].ids
  {
  }
}
