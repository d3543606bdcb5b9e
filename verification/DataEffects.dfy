/**
 * What the data operations of an update transaction do, row by row, cell by cell and slot by slot,
 * said of the rows and lists themselves; and when they are refused.
 */
module DataEffects {
  import opened Wrappers
  import opened Undo
  import A = Adjacency

  // ------------------------------------------------------------------------------------
  // Rows
  // ------------------------------------------------------------------------------------

  /** The row of a new vertex: a dead row of its oid, or one more. */
  predicate RowPlaced(x: seq<VRow>, y: seq<VRow>, lid: nat, oid: int, props: seq<int>) {
    && lid <= |x| && |y| == (if lid < |x| then |x| else |x| + 1) && y[lid] == VRow(oid, true, props)
    && (lid < |x| ==> x[lid].oid == oid && !x[lid].live)
    && (lid == |x| ==> forall k | 0 <= k < |x| :: x[k].oid != oid)
    && forall k | 0 <= k < |x| && k != lid :: y[k] == x[k]
  }

  predicate CellSet(x: seq<VRow>, y: seq<VRow>, lid: nat, col: nat, value: int) {
    && lid < |x| && |y| == |x| && (forall k | 0 <= k < |x| && k != lid :: y[k] == x[k])
    && y[lid].oid == x[lid].oid && y[lid].live == x[lid].live && |y[lid].props| == |x[lid].props|
    && col < |x[lid].props|
    && forall j | 0 <= j < |x[lid].props| :: y[lid].props[j] == if j == col then value else x[lid].props[j]
  }

  predicate RowDead(x: seq<VRow>, y: seq<VRow>, lid: nat) {
    && lid < |x| && |y| == |x| && (forall k | 0 <= k < |x| && k != lid :: y[k] == x[k])
    && y[lid].oid == x[lid].oid && y[lid].props == x[lid].props && x[lid].live && !y[lid].live
  }

  /** Only the rows of one label may differ. */
  predicate OtherRows(g: Graph, h: Graph, l: nat) {
    && h.kinds == g.kinds && l in g.rows && h.rows.Keys == g.rows.Keys
    && forall m | m in g.rows && m != l :: h.rows[m] == g.rows[m]
  }

  // ------------------------------------------------------------------------------------
  // Slots
  // ------------------------------------------------------------------------------------

  function Slots(a: map<nat, seq<A.Slot>>, v: nat): (l: seq<A.Slot>) { if v in a then a[v] else [] }

  ghost predicate OtherLists(a: map<nat, seq<A.Slot>>, b: map<nat, seq<A.Slot>>, u: nat) {
    forall v: nat | v != u :: Slots(b, v) == Slots(a, v)
  }

  /** One more slot at the end of u's list. */
  ghost predicate Appended(a: map<nat, seq<A.Slot>>, b: map<nat, seq<A.Slot>>, u: nat, s: A.Slot) {
    OtherLists(a, b, u) && Slots(b, u) == Slots(a, u) + [s]
  }

  /** Slot k of u's list loses its stamp. */
  ghost predicate Killed(a: map<nat, seq<A.Slot>>, b: map<nat, seq<A.Slot>>, u: nat, k: nat) {
    && OtherLists(a, b, u) && k < |Slots(a, u)| && |Slots(b, u)| == |Slots(a, u)|
    && Slots(b, u)[k] == A.Slot(Slots(a, u)[k].nbr, Slots(a, u)[k].data, None)
    && forall j | 0 <= j < |Slots(a, u)| && j != k :: Slots(b, u)[j] == Slots(a, u)[j]
  }

  function LiveBefore(l: seq<A.Slot>, i: nat): (n: nat)
    requires i <= |l|
  {
    if i == 0 then 0 else LiveBefore(l, i - 1) + (if l[i - 1].stamp.Some? then 1 else 0)
  }

  /** The r-th visible slot of u's list carries the value. */
  ghost predicate Valued(a: map<nat, seq<A.Slot>>, b: map<nat, seq<A.Slot>>, u: nat, r: nat, value: int) {
    && OtherLists(a, b, u) && |Slots(b, u)| == |Slots(a, u)|
    && exists i: nat :: Ranks(Slots(a, u), r, i) && forall j | 0 <= j < |Slots(a, u)| ::
        Slots(b, u)[j] == if j == i then A.Slot(Slots(a, u)[j].nbr, value, Slots(a, u)[j].stamp) else Slots(a, u)[j]
  }

  predicate Ranks(l: seq<A.Slot>, r: nat, i: nat) { i < |l| && l[i].stamp.Some? && LiveBefore(l, i) == r }

  /** Which edges of a triplet a vertex removal takes, by the side that the loop passes. */
  predicate Goes(k: Kinds, t: Triplet, l: nat, lid: nat, u: nat, w: nat) {
    t.src in k.valid && t.dst in k.valid && ((t.dst == l && u == lid) || (t.src == l && w == lid))
  }

  /** The edges that go are invisible on both sides, every other slot is as it was. */
  ghost predicate EdgesGo(k: Kinds, t: Triplet, l: nat, lid: nat, x: A.Table, y: A.Table) {
    && (forall u: nat, j: nat | j < |Slots(x.out, u)| ::
          SlotGoes(Slots(x.out, u), Slots(y.out, u), j, Goes(k, t, l, lid, u, Slots(x.out, u)[j].nbr)))
    && (forall w: nat, m: nat | m < |Slots(x.inc, w)| ::
          SlotGoes(Slots(x.inc, w), Slots(y.inc, w), m, Goes(k, t, l, lid, Slots(x.inc, w)[m].nbr, w)))
    && (forall u: nat :: |Slots(y.out, u)| == |Slots(x.out, u)| && |Slots(y.inc, u)| == |Slots(x.inc, u)|)
  }

  predicate SlotGoes(x: seq<A.Slot>, y: seq<A.Slot>, j: nat, goes: bool)
    requires j < |x|
  {
    && j < |y| && y[j].nbr == x[j].nbr && y[j].data == x[j].data
    && (y[j].stamp.Some? <==> x[j].stamp.Some? && !goes) && (y[j].stamp.Some? ==> y[j].stamp == x[j].stamp)
  }

  /** Only the table of one triplet may differ. */
  predicate OtherTables(g: Graph, h: Graph, t: Triplet) {
    && h.kinds == g.kinds && h.rows == g.rows && t in g.tables && h.tables.Keys == g.tables.Keys
    && forall m | m in g.tables && m != t :: h.tables[m] == g.tables[m]
  }

  // ------------------------------------------------------------------------------------
  // Operations
  // ------------------------------------------------------------------------------------

  /** The operation takes the graph g to h. */
  ghost predicate Does(g: Graph, ts: nat, op: Op, h: Graph) {
    match op
    case AddVertex(l, oid, props) =>
      OtherRows(g, h, l) && h.tables == g.tables && exists lid: nat :: RowPlaced(g.rows[l], h.rows[l], lid, oid, props)
    case SetVertex(l, lid, col, value) =>
      OtherRows(g, h, l) && h.tables == g.tables && CellSet(g.rows[l], h.rows[l], lid, col, value)
    case DeleteVertex(l, lid) =>
      && OtherRows(g, h, l) && RowDead(g.rows[l], h.rows[l], lid) && h.tables.Keys == g.tables.Keys
      && forall t | t in g.tables :: EdgesGo(g.kinds, t, l, lid, g.tables[t], h.tables[t])
    case AddEdge(t, src, dst, data) =>
      && OtherTables(g, h, t)
      && Appended(g.tables[t].out, h.tables[t].out, src, A.Slot(dst, data, Some(ts)))
      && Appended(g.tables[t].inc, h.tables[t].inc, dst, A.Slot(src, data, Some(ts)))
    case DeleteEdge(t, e) =>
      && OtherTables(g, h, t) && Killed(g.tables[t].out, h.tables[t].out, e.src, e.oe)
      && Killed(g.tables[t].inc, h.tables[t].inc, e.dst, e.ie)
    case SetEdge(t, src, dst, oe, ie, value) =>
      && OtherTables(g, h, t) && Valued(g.tables[t].out, h.tables[t].out, src, oe, value)
      && Valued(g.tables[t].inc, h.tables[t].inc, dst, ie, value)
  }

  predicate LiveRow(g: Graph, l: nat, lid: nat) { l in g.rows && lid < |g.rows[l]| && g.rows[l][lid].live }

  predicate Usable(g: Graph, t: Triplet) {
    t in g.tables && t.src in g.kinds.valid && t.dst in g.kinds.valid && t !in g.kinds.soft
  }

  /** The row that holds the oid last. */
  predicate LastOf(rows: seq<VRow>, oid: int, k: nat) {
    k < |rows| && rows[k].oid == oid && forall j | k < j < |rows| :: rows[j].oid != oid
  }

  ghost predicate Refused(g: Graph, op: Op) {
    match op
    case AddVertex(l, oid, _) =>
      l !in g.kinds.valid || l !in g.rows || exists k: nat :: LastOf(g.rows[l], oid, k) && g.rows[l][k].live
    case SetVertex(l, lid, col, _) =>
      l !in g.kinds.valid || !LiveRow(g, l, lid) || col >= |g.rows[l][lid].props|
    case DeleteVertex(l, lid) => l !in g.kinds.valid || !LiveRow(g, l, lid)
    case AddEdge(t, _, _, _) => !Usable(g, t)
    case DeleteEdge(t, e) =>
      !Usable(g, t) || |Slots(g.tables[t].out, e.src)| <= e.oe || |Slots(g.tables[t].inc, e.dst)| <= e.ie
    case SetEdge(t, src, dst, oe, ie, _) =>
      || !Usable(g, t) || (forall i: nat :: !Ranks(Slots(g.tables[t].out, src), oe, i))
      || (forall i: nat :: !Ranks(Slots(g.tables[t].inc, dst), ie, i))
  }

  // Vertices

  lemma {:induction false} FindRowIs(rows: seq<VRow>, oid: int)
    ensures var r := FindRow(rows, oid);
      (r.Some? ==> LastOf(rows, oid, r.value)) && (r.None? ==> forall k | 0 <= k < |rows| :: rows[k].oid != oid)
  {
    if rows != [] && rows[|rows| - 1].oid != oid { FindRowIs(rows[..|rows| - 1], oid); }
  }

  lemma AddVertexDoes(g: Graph, ts: nat, l: nat, oid: int, props: seq<int>)
    ensures var op := AddVertex(l, oid, props); var r := Do(g, ts, op);
      (r.None? <==> Refused(g, op)) && (r.Some? ==> Does(g, ts, op, r.value.graph))
  {
    var rows := Rows(g, l);
    FindRowIs(rows, oid);
    var lid := PlaceFor(rows, oid);
    var r := Do(g, ts, AddVertex(l, oid, props));
    if r.Some? {
      assert RowPlaced(g.rows[l], r.value.graph.rows[l], lid, oid, props);
    } else if l in g.kinds.valid && l in g.rows {
      assert LastOf(g.rows[l], oid, lid) && g.rows[l][lid].live;
    }
  }

  lemma SetVertexDoes(g: Graph, ts: nat, l: nat, lid: nat, col: nat, value: int)
    ensures var op := SetVertex(l, lid, col, value); var r := Do(g, ts, op);
      (r.None? <==> Refused(g, op)) && (r.Some? ==> Does(g, ts, op, r.value.graph))
  {
  }

  lemma TableDrops(k: Kinds, t: Triplet, tab: A.Table, l: nat, lid: nat)
    requires A.TableOk(tab)
    ensures var d := DropTable(k, t, tab, l, lid); d.Some? && EdgesGo(k, t, l, lid, tab, d.value)
  {
    DropTableWithout(k, t, tab, l, lid);
    var y := DropTable(k, t, tab, l, lid).value;
    forall u: nat, j: nat | j < |Slots(tab.out, u)|
      ensures SlotGoes(Slots(tab.out, u), Slots(y.out, u), j, Goes(k, t, l, lid, u, Slots(tab.out, u)[j].nbr))
    {
      SlotDrops(k, t, tab, y, l, lid, u, j);
    }
    forall w: nat, m: nat | m < |Slots(tab.inc, w)|
      ensures SlotGoes(Slots(tab.inc, w), Slots(y.inc, w), m, Goes(k, t, l, lid, Slots(tab.inc, w)[m].nbr, w))
    {
      SlotDropsIn(k, t, tab, y, l, lid, w, m);
    }
    forall u: nat ensures |Slots(y.out, u)| == |Slots(tab.out, u)| && |Slots(y.inc, u)| == |Slots(tab.inc, u)| {
      assert A.Untouched(A.List(tab.out, u), A.List(y.out, u)) && A.Untouched(A.List(tab.inc, u), A.List(y.inc, u));
    }
  }

  lemma SlotDrops(k: Kinds, t: Triplet, x: A.Table, y: A.Table, l: nat, lid: nat, u: nat, j: nat)
    requires A.Without(x, y, DroppedEnds(k, t, l, lid)) && A.TableUntouched(x, y) && j < |A.List(x.out, u)|
    ensures SlotGoes(A.List(x.out, u), A.List(y.out, u), j, Goes(k, t, l, lid, u, A.List(x.out, u)[j].nbr))
  {
    assert A.Shape(A.List(x.out, u), A.List(y.out, u)) && A.Untouched(A.List(x.out, u), A.List(y.out, u));
    assert A.Hits(DroppedEnds(k, t, l, lid), u, A.List(x.out, u)[j].nbr)
      <==> Goes(k, t, l, lid, u, A.List(x.out, u)[j].nbr);
  }

  lemma SlotDropsIn(k: Kinds, t: Triplet, x: A.Table, y: A.Table, l: nat, lid: nat, w: nat, m: nat)
    requires A.Without(x, y, DroppedEnds(k, t, l, lid)) && A.TableUntouched(x, y) && m < |A.List(x.inc, w)|
    ensures SlotGoes(A.List(x.inc, w), A.List(y.inc, w), m, Goes(k, t, l, lid, A.List(x.inc, w)[m].nbr, w))
  {
    assert A.Shape(A.List(x.inc, w), A.List(y.inc, w)) && A.Untouched(A.List(x.inc, w), A.List(y.inc, w));
    assert A.Hits(DroppedEnds(k, t, l, lid), A.List(x.inc, w)[m].nbr, w)
      <==> Goes(k, t, l, lid, A.List(x.inc, w)[m].nbr, w);
  }

  lemma DeleteVertexDoes(g: Graph, ts: nat, l: nat, lid: nat)
    requires EdgesOk(g.tables)
    ensures var op := DeleteVertex(l, lid); var r := Do(g, ts, op);
      (r.None? <==> Refused(g, op)) && (r.Some? ==> Does(g, ts, op, r.value.graph))
  {
    DropTablesOk(g.kinds, g.tables, l, lid);
    forall t | t in g.tables
      ensures var d := DropTable(g.kinds, t, g.tables[t], l, lid);
        d.Some? && EdgesGo(g.kinds, t, l, lid, g.tables[t], d.value)
    {
      TableDrops(g.kinds, t, g.tables[t], l, lid);
    }
  }

  // Edges

  /** Searching on from slot i for the r-th visible one. */
  lemma {:induction false} NthRanks(l: seq<A.Slot>, r: nat, i: nat, q: nat)
    requires i <= |l| && q == LiveBefore(l, i) + r
    ensures var n := A.Nth(l, r, i);
      (n.Some? ==> Ranks(l, q, n.value)) && (n.None? ==> forall j: nat | i <= j :: !Ranks(l, q, j))
    decreases |l| - i
  {
    if i < |l| {
      if !A.Live(l[i]) {
        NthRanks(l, r, i + 1, q);
        assert !Ranks(l, q, i);
      } else if r > 0 {
        NthRanks(l, r - 1, i + 1, q);
        assert !Ranks(l, q, i);
      }
    }
  }

  lemma AddEdgeDoes(g: Graph, ts: nat, t: Triplet, src: nat, dst: nat, data: int)
    ensures var op := AddEdge(t, src, dst, data); var r := Do(g, ts, op);
      (r.None? <==> Refused(g, op)) && (r.Some? ==> Does(g, ts, op, r.value.graph))
  {
    if t in g.tables { A.PutCapExact(g.tables[t], src, dst, data, ts); }
  }

  lemma DeleteEdgeDoes(g: Graph, ts: nat, t: Triplet, e: A.Cap)
    ensures var op := DeleteEdge(t, e); var r := Do(g, ts, op);
      (r.None? <==> Refused(g, op)) && (r.Some? ==> Does(g, ts, op, r.value.graph))
  {
  }

  lemma ListValued(a: map<nat, seq<A.Slot>>, u: nat, r: nat, value: int)
    requires A.Nth(A.List(a, u), r, 0).Some?
    ensures Valued(a, a[u := A.SetNth(A.List(a, u), r, value)], u, r, value)
  {
    NthRanks(A.List(a, u), r, 0, r);
    assert Ranks(Slots(a, u), r, A.Nth(A.List(a, u), r, 0).value);
  }

  lemma SetEdgeDoes(g: Graph, ts: nat, t: Triplet, src: nat, dst: nat, oe: nat, ie: nat, value: int)
    ensures var op := SetEdge(t, src, dst, oe, ie, value); var r := Do(g, ts, op);
      (r.None? <==> Refused(g, op)) && (r.Some? ==> Does(g, ts, op, r.value.graph))
  {
    if t in g.tables {
      var tab := g.tables[t];
      NthRanks(A.List(tab.out, src), oe, 0, oe);
      NthRanks(A.List(tab.inc, dst), ie, 0, ie);
      if A.SetEdge(tab, src, dst, oe, ie, value).Some? {
        ListValued(tab.out, src, oe, value);
        ListValued(tab.inc, dst, ie, value);
      }
    }
  }

  /** A data operation is refused exactly where it cannot be carried out, and otherwise does just what it says. */
  lemma DataDoes(g: Graph, ts: nat, op: Op)
    requires EdgesOk(g.tables)
    ensures var r := Do(g, ts, op); (r.None? <==> Refused(g, op)) && (r.Some? ==> Does(g, ts, op, r.value.graph))
  {
    match op
    case AddVertex(l, oid, props) => AddVertexDoes(g, ts, l, oid, props);
    case SetVertex(l, lid, col, value) => SetVertexDoes(g, ts, l, lid, col, value);
    case DeleteVertex(l, lid) => DeleteVertexDoes(g, ts, l, lid);
    case AddEdge(t, src, dst, data) => AddEdgeDoes(g, ts, t, src, dst, data);
    case DeleteEdge(t, e) => DeleteEdgeDoes(g, ts, t, e);
    case SetEdge(t, src, dst, oe, ie, value) => SetEdgeDoes(g, ts, t, src, dst, oe, ie, value);
  }
}
