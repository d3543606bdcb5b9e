/**
 * Everything an update transaction changes, in one state: vertices, edges, the columns of vertex
 * and edge types, and the types themselves; every operation with its undo record, and exactly when
 * the record takes the operation back.
 */
module Database {
  import opened Wrappers
  import U = Undo
  import C = Columns
  import N = Renames
  import A = Adjacency
  import R = Rebuild

  /** The graph, and the columns of every type that is not removed for good. */
  datatype Db = Db(g: U.Graph, cols: map<nat, C.VType>, ecols: map<Triplet, C.VType>)

  datatype Op =
    | OnData(op: U.Op)
    | OnColumns(l: nat, change: C.Op)
    | OnEdgeColumns(t: Triplet, change: C.Op)
    | CreateVertexType(l: nat, v: C.VType)
    | CreateEdgeType(t: Triplet, v: C.VType)
    | DropVertexType(l: nat)
    | DropEdgeType(t: Triplet)

  datatype Undo =
    | OfData(u: U.Undo)
    | OfColumns(l: nat, back: C.Undo)
    | OfEdgeColumns(t: Triplet, back: C.Undo)
    | UnCreateVertexType(l: nat)
    | UnCreateEdgeType(t: Triplet)
    | UnDropVertexType(l: nat)
    | UnDropEdgeType(t: Triplet)

  /** The state and the record, if one was left. */
  datatype Step = Step(db: Db, undo: Option<Undo>)

  // ------------------------------------------------------------------------------------
  // Cells
  // ------------------------------------------------------------------------------------

  function Defaults(news: seq<(string, N.Body)>): (r: seq<int>)
    ensures |r| == |news| && forall i | 0 <= i < |news| :: r[i] == news[i].1.value
  {
    seq(|news|, i requires 0 <= i < |news| => news[i].1.value)
  }

  /** Every row gets the defaults of new columns. */
  function Widen(rows: seq<U.VRow>, news: seq<(string, N.Body)>): (r: seq<U.VRow>)
    ensures |r| == |rows|
    ensures forall k | 0 <= k < |rows| :: r[k] == rows[k].(props := rows[k].props + Defaults(news))
  {
    seq(|rows|, k requires 0 <= k < |rows| => rows[k].(props := rows[k].props + Defaults(news)))
  }

  /** The cells of a row without those of the named columns, found by the ids at the time. */
  function CutCells(props: seq<int>, v: C.VType, names: seq<string>): (r: seq<int>) {
    if names == [] then props
    else
      var p, n := names[..|names| - 1], names[|names| - 1];
      var ids, cells := C.DropAll(v, p).ids, CutCells(props, v, p);
      if n in ids && ids[n] < |cells| then cells[..ids[n]] + cells[ids[n] + 1..] else cells
  }

  function Narrow(rows: seq<U.VRow>, v: C.VType, names: seq<string>): (r: seq<U.VRow>)
    ensures |r| == |rows|
    ensures forall k | 0 <= k < |rows| :: r[k] == rows[k].(props := CutCells(rows[k].props, v, names))
  {
    seq(|rows|, k requires 0 <= k < |rows| => rows[k].(props := CutCells(rows[k].props, v, names)))
  }

  // ------------------------------------------------------------------------------------
  // Operations
  // ------------------------------------------------------------------------------------

  /** The slots of the lists hold the properties themselves. */
  predicate Bundled(v: C.VType) { |v.cols| == 0 || (|v.cols| == 1 && !v.cols[0].body.varchar) }

  /** The columns the operation really adds. */
  predicate Adds(v: C.VType, change: C.Op) { change.Add? && change.news != [] && !C.Conflict(v, change.news) }

  /** The checks of the transaction on the number of properties and on the column. */
  predicate Allowed(db: Db, op: U.Op) {
    match op
    case AddVertex(l, _, props) => l in db.cols && |props| == C.LiveCount(db.cols[l].cols)
    case SetVertex(l, _, col, _) =>
      l in db.cols && col < |db.cols[l].cols| && !db.cols[l].cols[col].dead && col < C.LiveCount(db.cols[l].cols)
    case _ => true
  }

  /** None: refused, with nothing changed. */
  function Do(db: Db, ts: nat, op: Op): (r: Option<Step>) {
    match op
    case OnData(d) => DoData(db, ts, d)
    case OnColumns(l, change) => DoColumns(db, l, change)
    case OnEdgeColumns(t, change) => DoEdgeColumns(db, t, change)
    case _ => DoType(db, op)
  }

  function DoData(db: Db, ts: nat, op: U.Op): (r: Option<Step>) {
    if !Allowed(db, op) then None
    else match U.Do(db.g, ts, op)
      case None => None
      case Some(s) => Some(Step(db.(g := s.graph), Some(OfData(s.undo))))
  }

  function DoColumns(db: Db, l: nat, change: C.Op): (r: Option<Step>) {
    if l !in db.g.kinds.valid || l !in db.cols || l !in db.g.rows || change.Set? then None
    else match C.Do(db.cols[l], change)
      case None => None
      case Some(s) =>
        var rows := if Adds(db.cols[l], change) then Widen(db.g.rows[l], change.news) else db.g.rows[l];
        Some(Step(db.(g := db.g.(rows := db.g.rows[l := rows]), cols := db.cols[l := s.v]), Some(OfColumns(l, s.undo))))
  }

  /** The edge type's schema throws at a name it still has, even if that column was deleted. */
  predicate Throws(v: C.VType, change: C.Op) { Adds(v, change) && !C.Fresh(v, change.news) }

  predicate Known(v: C.VType, news: seq<(string, N.Body)>, i: nat)
    requires i < |news|
  {
    C.HasInternal(v, news[i].0) || exists j | 0 <= j < i :: news[j].0 == news[i].0
  }

  /** Where it throws. */
  function FirstKnown(v: C.VType, news: seq<(string, N.Body)>, i: nat): (k: nat)
    requires i <= |news|
    ensures i <= k <= |news| && (forall j | i <= j < k :: !Known(v, news, j)) && (k < |news| ==> Known(v, news, k))
    decreases |news| - i
  {
    if i == |news| || Known(v, news, i) then i else FirstKnown(v, news, i + 1)
  }

  /** What it leaves: the names in front in the schema, nothing in the table. */
  function Thrown(v: C.VType, news: seq<(string, N.Body)>): (w: C.VType) {
    v.(cols := C.AddAll(v, news[..FirstKnown(v, news, 0)]).cols)
  }

  /** The lists without payload cannot be exported into a first column that has values. */
  predicate ExportFails(v: C.VType, news: seq<(string, N.Body)>) {
    |v.cols| == 0 && |news| >= 2 && !news[0].1.varchar
  }

  predicate RebuildsNow(v: C.VType, change: C.Op) { Adds(v, change) && Bundled(v) && !ExportFails(v, change.news) }

  /** An exception leaves the record on the stack. */
  function DoEdgeColumns(db: Db, t: Triplet, change: C.Op): (r: Option<Step>) {
    if !U.Exists(db.g, t) || t !in db.ecols || change.Set? then None
    else if Throws(db.ecols[t], change) then
      Some(Step(db.(ecols := db.ecols[t := Thrown(db.ecols[t], change.news)]),
                Some(OfEdgeColumns(t, C.UnAdd(C.Names(change.news))))))
    else match C.Do(db.ecols[t], change)
      case None => None
      case Some(s) =>
        var tab := if RebuildsNow(db.ecols[t], change) then R.Rebuild(db.g.tables[t]) else db.g.tables[t];
        Some(Step(db.(g := db.g.(tables := db.g.tables[t := tab]), ecols := db.ecols[t := s.v]),
                  Some(OfEdgeColumns(t, s.undo))))
  }

  /**
   * Creating a vertex type under a label dropped in this transaction takes the tombstone away and
   * replaces the schema before it fails, and its record is taken off the stack.
   */
  function DoType(db: Db, op: Op): (r: Option<Step>) {
    var g, k := db.g, db.g.kinds;
    match op
    case CreateVertexType(l, v) =>
      if l in k.valid then None
      else if l in g.rows then
        Some(Step(Db(g.(kinds := k.(valid := k.valid + {l})), db.cols[l := v], db.ecols), None))
      else
        Some(Step(Db(g.(rows := g.rows[l := []], kinds := k.(valid := k.valid + {l})), db.cols[l := v], db.ecols),
                  Some(UnCreateVertexType(l))))
    case CreateEdgeType(t, v) =>
      if !U.Reaches(k, t) || t in g.tables then None
      else
        Some(Step(Db(g.(tables := g.tables[t := A.Table(map[], map[])]), db.cols, db.ecols[t := v]),
                  Some(UnCreateEdgeType(t))))
    case DropVertexType(l) =>
      if l !in k.valid then None
      else Some(Step(db.(g := g.(kinds := k.(valid := k.valid - {l}))), Some(UnDropVertexType(l))))
    case DropEdgeType(t) =>
      if !U.Exists(g, t) then None
      else Some(Step(db.(g := g.(kinds := k.(soft := k.soft + {t}))), Some(UnDropEdgeType(t))))
    case _ => None
  }

  /** The triplets removed with a label: those whose other end is still there. */
  function Incident(g: U.Graph, l: nat): (r: set<Triplet>) {
    set t | t in g.tables && t !in g.kinds.soft
            && ((t.src == l && t.dst in g.kinds.valid) || (t.dst == l && t.src in g.kinds.valid))
  }

  /** Running one undo record; None where the original throws. */
  function Undone(db: Db, ts: nat, u: Undo): (r: Option<Db>) {
    match u
    case OfData(d) => (match U.Undone(db.g, ts, d) case None => None case Some(g) => Some(db.(g := g)))
    case OfColumns(l, back) => UndoColumns(db, l, back)
    case OfEdgeColumns(t, back) => UndoEdgeColumns(db, t, back)
    case _ => UndoType(db, u)
  }

  function UndoColumns(db: Db, l: nat, back: C.Undo): (r: Option<Db>) {
    if l !in db.g.kinds.valid || l !in db.cols || l !in db.g.rows then None
    else match C.Undone(db.cols[l], back)
      case None => None
      case Some(v) =>
        var rows := if back.UnAdd? then Narrow(db.g.rows[l], db.cols[l], back.names) else db.g.rows[l];
        Some(db.(g := db.g.(rows := db.g.rows[l := rows]), cols := db.cols[l := v]))
  }

  /** With more columns in the schema than in the table, removing some takes a bundled payload away. */
  predicate Wipes(v: C.VType) { |v.cols| > v.width == 1 && !v.cols[0].body.varchar }

  function UndoEdgeColumns(db: Db, t: Triplet, back: C.Undo): (r: Option<Db>) {
    if !U.Exists(db.g, t) || t !in db.ecols || (back.UnAdd? && Wipes(db.ecols[t])) then None
    else match C.Undone(db.ecols[t], back)
      case None => None
      case Some(v) =>
        var tab := if back.UnAdd? && back.names != [] && Bundled(v) then R.Rebuild(db.g.tables[t]) else db.g.tables[t];
        Some(db.(g := db.g.(tables := db.g.tables[t := tab]), ecols := db.ecols[t := v]))
  }

  function UndoType(db: Db, u: Undo): (r: Option<Db>) {
    var g, k := db.g, db.g.kinds;
    match u
    case UnCreateVertexType(l) =>
      var g' := g.(rows := g.rows - {l}, kinds := k.(valid := k.valid - {l}));
      Some(Db(g'.(tables := g.tables - Incident(g', l)), db.cols - {l}, db.ecols - Incident(g', l)))
    case UnCreateEdgeType(t) =>
      Some(Db(g.(tables := g.tables - {t}, kinds := k.(soft := k.soft - {t})), db.cols, db.ecols - {t}))
    case UnDropVertexType(l) =>
      if l in k.valid || l !in g.rows then None else Some(db.(g := g.(kinds := k.(valid := k.valid + {l}))))
    case UnDropEdgeType(t) =>
      if t !in g.tables || t !in k.soft then None else Some(db.(g := g.(kinds := k.(soft := k.soft - {t}))))
    case _ => None
  }

  /** Running the record an operation left, if it left one. */
  function TakenBack(db: Db, ts: nat, u: Option<Undo>): (r: Option<Db>) {
    match u case None => Some(db) case Some(v) => Undone(db, ts, v)
  }

  // ------------------------------------------------------------------------------------
  // The same database
  // ------------------------------------------------------------------------------------

  /** Same graph, as U.Same has it, and the very same columns. */
  ghost predicate Same(p: set<Triplet>, o: Db, a: Db, b: Db) {
    U.Same(p, o.g, a.g, b.g) && a.cols == b.cols && a.ecols == b.ecols
  }

  ghost predicate Restored(p: set<Triplet>, o: Db, a: Db, b: Option<Db>) { b.Some? && Same(p, o, a, b.value) }

  function Touched(db: Db, op: Op): (p: set<Triplet>) { if op.OnData? then U.Touched(db.g, op.op) else {} }

  /** Tables and schema go together. */
  ghost predicate Ok(db: Db) {
    && db.g.rows.Keys == db.cols.Keys && db.g.kinds.valid <= db.g.rows.Keys
    && db.g.tables.Keys == db.ecols.Keys && db.g.kinds.soft <= db.g.tables.Keys
    && (forall t | t in db.g.tables :: t.src == t.dst || (t.src in db.g.rows && t.dst in db.g.rows))
    && (forall l | l in db.cols :: C.Valid(db.cols[l]))
    && (forall t | t in db.ecols :: C.Valid(db.ecols[t]))
  }

  /** The rows the origin shows have a cell for every column. */
  ghost predicate Filled(o: Db, db: Db) {
    forall l, k: nat | l in db.g.rows && l in db.cols && k < |db.g.rows[l]| && U.ValidLid(o.g, l, k) ::
      |db.g.rows[l][k].props| == db.cols[l].width
  }

  /** No column is renamed twice in one call, and the primary key is not renamed. */
  predicate Plain(db: Db, op: Op) {
    match op
    case OnColumns(l, change) => l in db.cols ==> C.Plain(db.cols[l], change)
    case OnEdgeColumns(t, change) => t in db.ecols ==> C.Plain(db.ecols[t], change)
    case _ => true
  }

  /** A rebuild of the lists leaves the recorded offsets alone. */
  ghost predicate Rebuildable(p: set<Triplet>, db: Db, t: Triplet, change: C.Op)
    requires t in db.ecols && t in db.g.tables
  {
    Adds(db.ecols[t], change) && Bundled(db.ecols[t]) && t in p ==> R.InOrder(db.g.tables[t])
  }

  /**
   * None of the names is in use, not even by a deleted column, and from the first repetition on
   * there are only repetitions.
   */
  predicate OnlyRepeats(v: C.VType, news: seq<(string, N.Body)>) {
    var k := FirstKnown(v, news, 0);
    && (forall i | 0 <= i < |news| :: news[i].0 !in v.ids)
    && (forall i | k <= i < |news| :: news[i].0 in C.Names(news[..k]))
  }

  /** There are only repetitions, and the payload is not in the lists. */
  predicate Repeats(v: C.VType, news: seq<(string, N.Body)>) {
    OnlyRepeats(v, news) && !(|v.cols| == 1 && !v.cols[0].body.varchar)
  }

  /** What a caller can check before the operation; `p` are the tables with offsets on record. */
  ghost predicate Restorable(p: set<Triplet>, o: Db, db: Db, ts: nat, op: Op) {
    match op
    case OnData(d) => U.Restorable(o.g, db.g, ts, d)
    case OnColumns(l, change) => l in db.cols ==> C.Restorable(db.cols[l], change)
    case OnEdgeColumns(t, change) =>
      t in db.ecols && t in db.g.tables ==>
        && Rebuildable(p, db, t, change)
        && if Throws(db.ecols[t], change) then Repeats(db.ecols[t], change.news) else C.Restorable(db.ecols[t], change)
    case CreateVertexType(l, _) => l !in db.g.rows
    case _ => true
  }
}
