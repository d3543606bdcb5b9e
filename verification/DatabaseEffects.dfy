/**
 * What every operation of an update transaction does to the database: data, columns of vertex and
 * edge types, and types, said of the rows, cells, lists and columns themselves; and when it is refused.
 */
module DatabaseEffects {
  import opened Wrappers
  import opened Database
  import A = Adjacency
  import C = Columns
  import CE = ColumnEffects
  import DE = DataEffects
  import N = Renames
  import R = Rebuild
  import U = Undo

  // ------------------------------------------------------------------------------------
  // What a reader sees of a list
  // ------------------------------------------------------------------------------------

  lemma {:induction false} PrefixCounts(l: seq<A.Slot>, m: nat, n: nat)
    requires n <= m <= |l|
    ensures DE.LiveBefore(l[..m], n) == DE.LiveBefore(l, n)
  {
    if n > 0 { PrefixCounts(l, m, n - 1); }
  }

  /** As many neighbours as visible slots. */
  lemma {:induction false} NeighbourCount(l: seq<A.Slot>)
    ensures |R.Neighbours(l)| == DE.LiveBefore(l, |l|)
  {
    if l != [] {
      NeighbourCount(l[..|l| - 1]);
      PrefixCounts(l, |l| - 1, |l| - 1);
    }
  }

  /** A visible slot shows its neighbour and payload, behind those of the visible slots in front of it. */
  lemma {:induction false} NeighbourAt(l: seq<A.Slot>, j: nat)
    requires j < |l| && l[j].stamp.Some?
    ensures var k := DE.LiveBefore(l, j); k < |R.Neighbours(l)| && R.Neighbours(l)[k] == (l[j].nbr, l[j].data)
  {
    var n := |l| - 1;
    NeighbourCount(l[..n]);
    PrefixCounts(l, n, n);
    if j < n {
      NeighbourAt(l[..n], j);
      PrefixCounts(l, n, j);
    }
  }

  // ------------------------------------------------------------------------------------
  // Operations
  // ------------------------------------------------------------------------------------

  /** Every row keeps its cells and gets the defaults of the new columns behind them. */
  predicate RowsWidened(x: seq<U.VRow>, y: seq<U.VRow>, news: seq<(string, N.Body)>) {
    |y| == |x| && forall k: nat | k < |x| :: RowWidened(x[k], y[k], news)
  }

  predicate RowWidened(a: U.VRow, b: U.VRow, news: seq<(string, N.Body)>) {
    && b.oid == a.oid && b.live == a.live && |b.props| == |a.props| + |news|
    && (forall j | 0 <= j < |a.props| :: b.props[j] == a.props[j])
    && forall i | 0 <= i < |news| :: b.props[|a.props| + i] == news[i].1.value
  }

  ghost predicate Comes(v: C.VType, change: C.Op) {
    change.Add? && forall i | 0 <= i < |change.news| :: !CE.Knows(v, change.news[i].0)
  }

  /** The schema still has the name, of whatever column, or got it just now. */
  ghost predicate Known(v: C.VType, news: seq<(string, N.Body)>, i: nat)
    requires i < |news|
  {
    || v.pk == Some(news[i].0) || (exists j :: 0 <= j < |v.cols| && v.cols[j].name == news[i].0)
    || exists j :: 0 <= j < i && news[j].0 == news[i].0
  }

  /** It throws at the i-th name and keeps those in front, in the schema only. */
  ghost predicate ThrowsAt(v: C.VType, news: seq<(string, N.Body)>, i: nat) {
    i < |news| && Known(v, news, i) && forall j: nat | j < i :: !Known(v, news, j)
  }

  ghost predicate EdgeColumnsDo(v: C.VType, change: C.Op, w: C.VType) {
    if Comes(v, change) && exists i: nat :: ThrowsAt(v, change.news, i) then
      && w.pk == v.pk && w.ids == v.ids && w.width == v.width
      && exists i: nat :: ThrowsAt(v, change.news, i) && CE.ColsAdded(v.cols, change.news[..i], w.cols)
    else CE.Does(v, change, w)
  }

  /** Only one vertex type may differ, and its rows get the new cells. */
  ghost predicate RowsFollow(db: Db, l: nat, change: C.Op, e: Db) {
    && DE.OtherRows(db.g, e.g, l) && e.g.tables == db.g.tables && e.ecols == db.ecols
    && OtherColumns(db.cols, e.cols, l)
    && if Comes(db.cols[l], change) then RowsWidened(db.g.rows[l], e.g.rows[l], change.news)
       else e.g.rows[l] == db.g.rows[l]
  }

  /** Only one edge type may differ, and its lists show the same edges. */
  ghost predicate ListsFollow(db: Db, t: Triplet, e: Db) {
    && DE.OtherTables(db.g, e.g, t) && e.cols == db.cols && R.Shows(db.g.tables[t], e.g.tables[t])
    && OtherColumns(db.ecols, e.ecols, t)
  }

  ghost predicate Does(db: Db, ts: nat, op: Op, e: Db) {
    match op
    case OnData(d) => e.cols == db.cols && e.ecols == db.ecols && DE.Does(db.g, ts, d, e.g)
    case OnColumns(l, change) => RowsFollow(db, l, change, e) && CE.Does(db.cols[l], change, e.cols[l])
    case OnEdgeColumns(t, change) => ListsFollow(db, t, e) && EdgeColumnsDo(db.ecols[t], change, e.ecols[t])
    case CreateVertexType(l, v) =>
      && e.g.kinds.valid == db.g.kinds.valid + {l} && e.g.kinds.soft == db.g.kinds.soft && e.g.tables == db.g.tables
      && e.ecols == db.ecols && e.cols.Keys == db.cols.Keys + {l} && e.cols[l] == v
      && (forall m | m in db.cols && m != l :: e.cols[m] == db.cols[m])
      && e.g.rows.Keys == db.g.rows.Keys + {l} && (l !in db.g.rows ==> e.g.rows[l] == [])
      && forall m | m in db.g.rows :: e.g.rows[m] == db.g.rows[m]
    case CreateEdgeType(t, v) =>
      && e.g.kinds == db.g.kinds && e.g.rows == db.g.rows && e.cols == db.cols
      && e.ecols.Keys == db.ecols.Keys + {t} && e.ecols[t] == v
      && (forall m | m in db.ecols && m != t :: e.ecols[m] == db.ecols[m])
      && e.g.tables.Keys == db.g.tables.Keys + {t} && e.g.tables[t].out == map[] && e.g.tables[t].inc == map[]
      && forall m | m in db.g.tables && m != t :: e.g.tables[m] == db.g.tables[m]
    case DropVertexType(l) =>
      && e.g.kinds.valid == db.g.kinds.valid - {l} && e.g.kinds.soft == db.g.kinds.soft && e.g.rows == db.g.rows
      && e.g.tables == db.g.tables && e.cols == db.cols && e.ecols == db.ecols
    case DropEdgeType(t) =>
      && e.g.kinds.valid == db.g.kinds.valid && e.g.kinds.soft == db.g.kinds.soft + {t} && e.g.rows == db.g.rows
      && e.g.tables == db.g.tables && e.cols == db.cols && e.ecols == db.ecols
  }

  predicate OtherColumns<T(==)>(a: map<T, C.VType>, b: map<T, C.VType>, l: T) {
    l in a && b.Keys == a.Keys && forall m | m in a && m != l :: b[m] == a[m]
  }

  /** The number of properties fits the columns, and a changed column is not deleted. */
  predicate Fits(db: Db, d: U.Op) {
    match d
    case AddVertex(l, _, props) => l in db.cols && |props| == CE.LiveUpTo(db.cols[l].cols, |db.cols[l].cols|)
    case SetVertex(l, _, col, _) =>
      && l in db.cols && col < |db.cols[l].cols| && !db.cols[l].cols[col].dead
      && col < CE.LiveUpTo(db.cols[l].cols, |db.cols[l].cols|)
    case _ => true
  }

  ghost predicate Refused(db: Db, op: Op) {
    match op
    case OnData(d) => !Fits(db, d) || DE.Refused(db.g, d)
    case OnColumns(l, change) =>
      l !in db.g.kinds.valid || l !in db.cols || l !in db.g.rows || change.Set? || CE.Refused(db.cols[l], change)
    case OnEdgeColumns(t, change) =>
      !DE.Usable(db.g, t) || t !in db.ecols || change.Set? || CE.Refused(db.ecols[t], change)
    case CreateVertexType(l, _) => l in db.g.kinds.valid
    case CreateEdgeType(t, _) => t.src !in db.g.kinds.valid || t.dst !in db.g.kinds.valid || t in db.g.tables
    case DropVertexType(l) => l !in db.g.kinds.valid
    case DropEdgeType(t) => !DE.Usable(db.g, t)
  }

  // ------------------------------------------------------------------------------------
  // Proofs
  // ------------------------------------------------------------------------------------

  lemma DataDo(db: Db, ts: nat, d: U.Op)
    requires U.EdgesOk(db.g.tables)
    ensures var r := DoData(db, ts, d);
      (r.None? <==> Refused(db, OnData(d))) && (r.Some? ==> Does(db, ts, OnData(d), r.value.db))
  {
    DE.DataDoes(db.g, ts, d);
    match d
    case AddVertex(l, _, _) => if l in db.cols { CE.LiveCountIs(db.cols[l].cols); }
    case SetVertex(l, _, _, _) => if l in db.cols { CE.LiveCountIs(db.cols[l].cols); }
    case _ =>
  }

  lemma ConflictIs(v: C.VType, change: C.Op)
    requires change.Add?
    ensures !C.Conflict(v, change.news) <==> Comes(v, change)
  {
    forall i | 0 <= i < |change.news| ensures C.Has(v, change.news[i].0) <==> CE.Knows(v, change.news[i].0) {
      CE.HasIs(v, change.news[i].0);
    }
  }

  lemma WidenDoes(rows: seq<U.VRow>, news: seq<(string, N.Body)>)
    ensures RowsWidened(rows, Widen(rows, news), news)
    ensures news == [] ==> RowsWidened(rows, rows, news)
  {
    var y := Widen(rows, news);
    forall k: nat | k < |rows| ensures RowWidened(rows[k], y[k], news) {
      assert y[k] == rows[k].(props := rows[k].props + Defaults(news));
    }
  }

  lemma ColumnsDo(db: Db, ts: nat, l: nat, change: C.Op)
    ensures var r := DoColumns(db, l, change);
      (r.None? <==> Refused(db, OnColumns(l, change))) && (r.Some? ==> Does(db, ts, OnColumns(l, change), r.value.db))
  {
    ColumnsRefused(db, l, change);
    if DoColumns(db, l, change).Some? { ColumnsDone(db, ts, l, change); }
  }

  lemma ColumnsRefused(db: Db, l: nat, change: C.Op)
    ensures DoColumns(db, l, change).None? <==> Refused(db, OnColumns(l, change))
  {
    if l in db.cols { CE.ColumnsDo(db.cols[l], change); }
  }

  lemma ColumnsDone(db: Db, ts: nat, l: nat, change: C.Op)
    requires DoColumns(db, l, change).Some?
    ensures Does(db, ts, OnColumns(l, change), DoColumns(db, l, change).value.db)
  {
    RowsDone(db, l, change);
    SchemaDone(db, l, change);
  }

  lemma RowsDone(db: Db, l: nat, change: C.Op)
    requires DoColumns(db, l, change).Some?
    ensures RowsFollow(db, l, change, DoColumns(db, l, change).value.db)
  {
    RowsDo(db.cols[l], db.g.rows[l], change);
  }

  lemma SchemaDone(db: Db, l: nat, change: C.Op)
    requires DoColumns(db, l, change).Some?
    ensures CE.Does(db.cols[l], change, DoColumns(db, l, change).value.db.cols[l])
  {
    CE.ColumnsDo(db.cols[l], change);
  }

  lemma RowsDo(v: C.VType, rows: seq<U.VRow>, change: C.Op)
    ensures var y := if Adds(v, change) then Widen(rows, change.news) else rows;
      if Comes(v, change) then RowsWidened(rows, y, change.news) else y == rows
  {
    if change.Add? {
      ConflictIs(v, change);
      WidenDoes(rows, change.news);
    }
  }

  lemma KnownIs(v: C.VType, news: seq<(string, N.Body)>, i: nat)
    requires i < |news|
    ensures Database.Known(v, news, i) <==> Known(v, news, i)
  {
  }

  lemma FirstIs(v: C.VType, news: seq<(string, N.Body)>, i: nat)
    ensures ThrowsAt(v, news, i) <==> i < |news| && FirstKnown(v, news, 0) == i
  {
    forall j: nat | j < |news| ensures Database.Known(v, news, j) <==> Known(v, news, j) { KnownIs(v, news, j); }
  }

  lemma FreshIs(v: C.VType, news: seq<(string, N.Body)>)
    requires C.Valid(v)
    ensures C.Fresh(v, news) <==> FirstKnown(v, news, 0) == |news|
  {
    forall i: nat | i < |news| ensures Database.Known(v, news, i)
        <==> news[i].0 in v.ids || v.pk == Some(news[i].0) || exists j :: 0 <= j < i && news[j].0 == news[i].0
    {
      C.FindIs(v.cols, v.ids, news[i].0);
    }
  }

  lemma ThrownDoes(v: C.VType, change: C.Op)
    requires C.Valid(v) && Throws(v, change)
    ensures EdgeColumnsDo(v, change, Thrown(v, change.news)) && Comes(v, change)
    ensures !CE.Refused(v, change)
  {
    ConflictIs(v, change);
    FreshIs(v, change.news);
    var i := FirstKnown(v, change.news, 0);
    FirstIs(v, change.news, i);
    CE.AddAllDoes(v, change.news[..i]);
  }

  lemma NotThrown(v: C.VType, change: C.Op, w: C.VType)
    requires C.Valid(v) && !Throws(v, change) && CE.Does(v, change, w)
    ensures EdgeColumnsDo(v, change, w)
  {
    if Comes(v, change) {
      ConflictIs(v, change);
      FreshIs(v, change.news);
      forall i: nat ensures !ThrowsAt(v, change.news, i) { FirstIs(v, change.news, i); }
    }
  }

  lemma EdgeColumnsRefused(db: Db, t: Triplet, change: C.Op)
    requires t in db.ecols ==> C.Valid(db.ecols[t])
    ensures DoEdgeColumns(db, t, change).None? <==> Refused(db, OnEdgeColumns(t, change))
  {
    if t in db.ecols {
      CE.ColumnsDo(db.ecols[t], change);
      EdgeSchemaDoes(db.ecols[t], change);
    }
  }

  lemma EdgeColumnsDone(db: Db, ts: nat, t: Triplet, change: C.Op)
    requires t in db.g.tables && A.TableOk(db.g.tables[t])
    requires t in db.ecols && C.Valid(db.ecols[t]) && DoEdgeColumns(db, t, change).Some?
    ensures Does(db, ts, OnEdgeColumns(t, change), DoEdgeColumns(db, t, change).value.db)
  {
    ListsDone(db, t, change);
    EdgeSchemaDone(db, t, change);
  }

  lemma ListsDone(db: Db, t: Triplet, change: C.Op)
    requires t in db.g.tables && A.TableOk(db.g.tables[t]) && DoEdgeColumns(db, t, change).Some?
    ensures ListsFollow(db, t, DoEdgeColumns(db, t, change).value.db)
  {
    StillShown(db.g.tables[t]);
  }

  lemma EdgeSchemaDone(db: Db, t: Triplet, change: C.Op)
    requires t in db.ecols && C.Valid(db.ecols[t]) && DoEdgeColumns(db, t, change).Some?
    ensures EdgeColumnsDo(db.ecols[t], change, DoEdgeColumns(db, t, change).value.db.ecols[t])
  {
    EdgeSchemaDoes(db.ecols[t], change);
  }

  lemma EdgeColumnsDoes(db: Db, ts: nat, t: Triplet, change: C.Op)
    requires U.EdgesOk(db.g.tables) && (t in db.ecols ==> C.Valid(db.ecols[t]))
    ensures var r := DoEdgeColumns(db, t, change);
      (r.None? <==> Refused(db, OnEdgeColumns(t, change)))
      && (r.Some? ==> Does(db, ts, OnEdgeColumns(t, change), r.value.db))
  {
    EdgeColumnsRefused(db, t, change);
    if DoEdgeColumns(db, t, change).Some? { EdgeColumnsDone(db, ts, t, change); }
  }

  lemma StillShown(tab: A.Table)
    requires A.TableOk(tab)
    ensures R.Shows(tab, tab) && R.Shows(tab, R.Rebuild(tab))
  {
    R.ShowsRefl(tab);
    R.OkIsPaired(tab);
    R.RebuildShows(tab, tab);
  }

  lemma EdgeSchemaDoes(v: C.VType, change: C.Op)
    requires C.Valid(v)
    ensures Throws(v, change) ==> EdgeColumnsDo(v, change, Thrown(v, change.news)) && !CE.Refused(v, change)
    ensures !Throws(v, change) && C.Do(v, change).Some? ==> EdgeColumnsDo(v, change, C.Do(v, change).value.v)
  {
    CE.ColumnsDo(v, change);
    if Throws(v, change) {
      ThrownDoes(v, change);
    } else if C.Do(v, change).Some? {
      NotThrown(v, change, C.Do(v, change).value.v);
    }
  }

  lemma TypesDo(db: Db, ts: nat, op: Op)
    requires !op.OnData? && !op.OnColumns? && !op.OnEdgeColumns?
    ensures var r := Do(db, ts, op); (r.None? <==> Refused(db, op)) && (r.Some? ==> Does(db, ts, op, r.value.db))
  {
  }

  /** Any operation is refused exactly where it cannot be carried out, and otherwise does just what it says. */
  lemma DatabaseDoes(db: Db, ts: nat, op: Op)
    requires U.EdgesOk(db.g.tables) && forall t | t in db.ecols :: C.Valid(db.ecols[t])
    ensures var r := Do(db, ts, op); (r.None? <==> Refused(db, op)) && (r.Some? ==> Does(db, ts, op, r.value.db))
  {
    match op
    case OnData(d) => DataDo(db, ts, d);
    case OnColumns(l, change) => ColumnsDo(db, ts, l, change);
    case OnEdgeColumns(t, change) => EdgeColumnsDoes(db, ts, t, change);
    case _ => TypesDo(db, ts, op);
  }
}
