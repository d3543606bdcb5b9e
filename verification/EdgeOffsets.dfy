/**
 * Offsets across the rebuilds of an edge type.  As long as every slot is in the same place in the
 * transaction's lists and in recovery's, removals and property changes are repeated; a rebuild that
 * only recovery does keeps the places exactly if no slot is deleted and the lists are in order.
 */
module EdgeOffsets {
  import opened Wrappers
  import opened Columns
  import opened EdgeColumns
  import opened EdgeDeferral
  import A = Adjacency
  import B = Database
  import D = Deferral
  import E = EdgeRecords
  import N = Renames
  import R = Rebuild
  import X = DeferralExact
  import Rows

  // ------------------------------------------------------------------------------------
  // Places
  // ------------------------------------------------------------------------------------

  predicate Alike(a: A.Slot, b: A.Slot) { a.nbr == b.nbr && a.data == b.data && (A.Live(a) <==> A.Live(b)) }

  predicate SamePlaces(a: seq<A.Slot>, b: seq<A.Slot>) {
    |a| == |b| && forall k | 0 <= k < |a| :: Alike(a[k], b[k])
  }

  ghost predicate Placed(x: A.Adj, y: A.Adj) { forall u: nat :: SamePlaces(A.List(x, u), A.List(y, u)) }

  /** Every slot is where it is in the other lists. */
  ghost predicate Aligned(x: A.Table, y: A.Table) { Placed(x.out, y.out) && Placed(x.inc, y.inc) }

  lemma PlacedAt(x: A.Adj, y: A.Adj, u: nat)
    requires Placed(x, y)
    ensures SamePlaces(A.List(x, u), A.List(y, u))
  {
  }

  lemma PlacedSelf(x: A.Adj)
    ensures Placed(x, x)
  {
  }

  /** The offsets of a removal name the same slots. */
  lemma AlignedRemoves(x: Edges, w: Kept, e: A.Cap)
    requires Aligned(x.tab, w.tab) && Proper(x, RemoveEdge(e))
    ensures RemoveOk(x, w, e)
  {
    PlacedAt(x.tab.out, w.tab.out, e.src);
    PlacedAt(x.tab.inc, w.tab.inc, e.dst);
    assert Alike(A.List(x.tab.out, e.src)[e.oe], A.List(w.tab.out, e.src)[e.oe]);
    assert Alike(A.List(x.tab.inc, e.dst)[e.ie], A.List(w.tab.inc, e.dst)[e.ie]);
  }

  lemma SameRank(a: seq<A.Slot>, b: seq<A.Slot>, r: nat)
    requires SamePlaces(a, b)
    ensures Ranked(a, r).Some? <==> Ranked(b, r).Some?
    ensures Ranked(a, r).Some? ==> Alike(Ranked(a, r).value, Ranked(b, r).value)
  {
    forall j | 0 <= j < |a| ensures A.Live(a[j]) <==> A.Live(b[j]) { assert Alike(a[j], b[j]); }
    A.NthIgnoresData(a, b, r, 0);
  }

  lemma AlikeSets(a: A.Slot, b: A.Slot, k: nat, value: int)
    requires Alike(a, b)
    ensures SameSet(a, k, Some(b), k, value)
  {
  }

  /** The id of the column means the same once the deleted columns are gone. */
  predicate ColumnStays(x: Edges, col: nat)
    requires col < |x.cols.v.cols|
  {
    B.Bundled(Left(x.cols)) || forall j | 0 <= j < col :: !x.cols.v.cols[j].dead
  }

  lemma PlaceIs(x: Edges, col: nat)
    requires Settable(x, col) && ColumnStays(x, col)
    ensures var j := if B.Bundled(Left(x.cols)) then 0 else col;
      Place(x, col) == j && j < |D.Alive(x.cols.v.cols)|
  {
    var cols := x.cols.v.cols;
    assert cols == cols[..col] + [cols[col]] + cols[col + 1..];
    D.AliveAppend(cols[..col] + [cols[col]], cols[col + 1..]);
    D.AliveAppend(cols[..col], [cols[col]]);
    D.FrontLive(cols, col);
  }

  /** The ranks of a property change name the same slots. */
  lemma AlignedSets(x: Edges, w: Kept, c: Change)
    requires c.SetEdge? && Aligned(x.tab, w.tab) && Proper(x, c) && Settable(x, c.col) && ColumnStays(x, c.col)
    ensures SetOk(x, w, c)
  {
    PlaceIs(x, c.col);
    PlacedAt(x.tab.out, w.tab.out, c.src);
    PlacedAt(x.tab.inc, w.tab.inc, c.dst);
    SameRank(A.List(x.tab.out, c.src), A.List(w.tab.out, c.src), c.oe);
    SameRank(A.List(x.tab.inc, c.dst), A.List(w.tab.inc, c.dst), c.ie);
    AlikeSets(Ranked(A.List(x.tab.out, c.src), c.oe).value, Ranked(A.List(w.tab.out, c.src), c.oe).value,
      Place(x, c.col), c.value);
    AlikeSets(Ranked(A.List(x.tab.inc, c.dst), c.ie).value, Ranked(A.List(w.tab.inc, c.dst), c.ie).value,
      Place(x, c.col), c.value);
  }

  // ------------------------------------------------------------------------------------
  // Rebuilds
  // ------------------------------------------------------------------------------------

  lemma RevaluePlaced(f: int -> int, x: A.Adj, y: A.Adj)
    requires Placed(x, y)
    ensures Placed(E.Revalue(f, x), E.Revalue(f, y))
  {
    forall u: nat ensures SamePlaces(A.List(E.Revalue(f, x), u), A.List(E.Revalue(f, y), u)) {
      PlacedAt(x, y, u);
      E.RevalueAt(f, x, u);
      E.RevalueAt(f, y, u);
      forall k | 0 <= k < |A.List(x, u)|
        ensures Alike(A.List(E.Revalue(f, x), u)[k], A.List(E.Revalue(f, y), u)[k])
      {
        assert Alike(A.List(x, u)[k], A.List(y, u)[k]);
      }
    }
  }

  lemma PlacesSame(a: seq<A.Slot>, b: seq<A.Slot>)
    requires SamePlaces(a, b)
    ensures A.SameList(a, b)
  {
    forall k | 0 <= k < |a| ensures a[k].nbr == b[k].nbr && a[k].data == b[k].data && (A.Live(b[k]) <==> A.Live(a[k])) {
      assert Alike(a[k], b[k]);
    }
  }

  lemma AlignedSame(x: A.Table, y: A.Table)
    requires Aligned(x, y)
    ensures A.SameTable(x, y)
  {
    forall u: nat ensures A.SameList(A.List(x.out, u), A.List(y.out, u))
      && A.SameList(A.List(x.inc, u), A.List(y.inc, u)) {
      PlacedAt(x.out, y.out, u);
      PlacedAt(x.inc, y.inc, u);
      PlacesSame(A.List(x.out, u), A.List(y.out, u));
      PlacesSame(A.List(x.inc, u), A.List(y.inc, u));
    }
    A.SameTableIs(x, y);
  }

  ghost predicate SameLists(x: A.Table, y: A.Table) {
    forall u: nat :: A.List(x.out, u) == A.List(y.out, u) && A.List(x.inc, u) == A.List(y.inc, u)
  }

  lemma AlignedRebuilt(x: A.Table, y: A.Table)
    requires R.Paired(x) && Aligned(x, y)
    ensures SameLists(R.Rebuild(x), R.Rebuild(y))
  {
    AlignedSame(x, y);
    R.RebuildSame(x, y);
  }

  lemma SameListsAligned(x: A.Table, y: A.Table, z: A.Table)
    requires SameLists(y, z)
    ensures Aligned(x, y) <==> Aligned(x, z)
  {
    forall u: nat ensures A.List(y.out, u) == A.List(z.out, u) && A.List(y.inc, u) == A.List(z.inc, u) { }
    if Aligned(x, y) {
      forall u: nat ensures SamePlaces(A.List(x.out, u), A.List(z.out, u))
        && SamePlaces(A.List(x.inc, u), A.List(z.inc, u)) {
        PlacedAt(x.out, y.out, u);
        PlacedAt(x.inc, y.inc, u);
      }
    } else if Aligned(x, z) {
      forall u: nat ensures SamePlaces(A.List(x.out, u), A.List(y.out, u))
        && SamePlaces(A.List(x.inc, u), A.List(y.inc, u)) {
        PlacedAt(x.out, z.out, u);
        PlacedAt(x.inc, z.inc, u);
      }
    }
  }

  /** Lists without deleted slots, equal up to stamps. */
  lemma InOrderIs(a: seq<A.Slot>, b: seq<A.Slot>)
    requires forall k | 0 <= k < |b| :: b[k].stamp == Some(0)
    ensures SamePlaces(a, b) <==> R.AllLive(a) && R.SamePayload(a, b)
  {
    if SamePlaces(a, b) {
      forall k | 0 <= k < |a| ensures A.Live(a[k]) && a[k].nbr == b[k].nbr && a[k].data == b[k].data {
        assert Alike(a[k], b[k]);
      }
    }
  }

  lemma SqueezedOut(l: seq<A.Slot>)
    ensures SamePlaces(l, R.Squeeze(l)) <==> R.AllLive(l)
  {
    R.SqueezeSees(l);
    R.SqueezeSize(l);
    InOrderIs(l, R.Squeeze(l));
  }

  lemma RebuiltAt(t: A.Table, u: nat)
    ensures SamePlaces(A.List(t.out, u), A.List(R.Rebuild(t).out, u)) <==> R.AllLive(A.List(t.out, u))
    ensures SamePlaces(A.List(t.inc, u), A.List(R.Rebuild(t).inc, u))
            <==> R.AllLive(A.List(t.inc, u)) && R.SamePayload(A.List(t.inc, u), A.List(R.Rebuild(t).inc, u))
  {
    R.RebuildOut(t, u);
    R.RebuildInc(t, u);
    SqueezedOut(A.List(t.out, u));
    R.ExportedLive(t.out, u, R.Bound(t.out));
    InOrderIs(A.List(t.inc, u), A.List(R.Rebuild(t).inc, u));
  }

  lemma RebuildAlignsExact(t: A.Table)
    ensures Aligned(t, R.Rebuild(t)) <==> R.InOrder(t)
  {
    if Aligned(t, R.Rebuild(t)) {
      forall u: nat
        ensures R.AllLive(A.List(t.out, u)) && R.AllLive(A.List(t.inc, u))
        ensures R.SamePayload(A.List(t.inc, u), A.List(R.Rebuild(t).inc, u))
      {
        PlacedAt(t.out, R.Rebuild(t).out, u);
        PlacedAt(t.inc, R.Rebuild(t).inc, u);
        RebuiltAt(t, u);
      }
    } else if R.InOrder(t) {
      forall u: nat
        ensures SamePlaces(A.List(t.out, u), A.List(R.Rebuild(t).out, u))
        ensures SamePlaces(A.List(t.inc, u), A.List(R.Rebuild(t).inc, u))
      {
        InOrderAt(t, u);
        RebuiltAt(t, u);
      }
    }
  }

  lemma InOrderAt(t: A.Table, u: nat)
    requires R.InOrder(t)
    ensures R.AllLive(A.List(t.out, u)) && R.AllLive(A.List(t.inc, u))
    ensures R.SamePayload(A.List(t.inc, u), A.List(R.Rebuild(t).inc, u))
  {
  }

  /** Rebuilt in recovery only. */
  lemma RebuiltThereExact(x: A.Table, y: A.Table)
    requires R.Paired(x) && Aligned(x, y)
    ensures Aligned(x, R.Rebuild(y)) <==> R.InOrder(x)
  {
    AlignedRebuilt(x, y);
    SameListsAligned(x, R.Rebuild(x), R.Rebuild(y));
    RebuildAlignsExact(x);
  }

  /** Rebuilt on both sides. */
  lemma RebuiltBoth(x: A.Table, y: A.Table)
    requires R.Paired(x) && Aligned(x, y)
    ensures Aligned(R.Rebuild(x), R.Rebuild(y))
  {
    AlignedRebuilt(x, y);
    PlacedSelf(R.Rebuild(x).out);
    PlacedSelf(R.Rebuild(x).inc);
    SameListsAligned(R.Rebuild(x), R.Rebuild(x), R.Rebuild(y));
  }

  // ------------------------------------------------------------------------------------
  // Column changes
  // ------------------------------------------------------------------------------------

  predicate RebuildsHere(v: VType, op: Op) { op.Add? && Adds(v, op.news) && B.Bundled(v) }

  /** What recovery does with the columns that are left. */
  predicate RebuildsThere(v: VType, op: Op) {
    match op
    case Add(news, _) => Adds(v, news) && B.Bundled(v)
    case Delete(names) => names != [] && TryDrop(v, names).Some? && B.Bundled(TryDrop(v, names).value)
    case _ => false
  }

  lemma {:induction false} DropCols(v: VType, w: VType, names: seq<string>)
    requires v.cols == w.cols
    ensures DropAll(v, names).cols == DropAll(w, names).cols
  {
    if names != [] { DropCols(v, w, names[..|names| - 1]); }
  }

  lemma KnownCols(v: VType, w: VType, news: seq<(string, N.Body)>)
    requires v.cols == w.cols && v.pk == w.pk
    ensures Stops(v, news) <==> Stops(w, news)
  {
    forall i | 0 <= i < |news| ensures B.Known(v, news, i) <==> B.Known(w, news, i) { }
  }

  lemma SameThere(v: VType, w: VType, op: Op)
    requires v.cols == w.cols && v.pk == w.pk
    ensures RebuildsThere(v, op) <==> RebuildsThere(w, op)
  {
    match op
    case Add(news, _) => KnownCols(v, w, news);
    case Delete(names) => DropCols(v, w, names);
    case _ =>
  }

  /** The change rebuilds in recovery, not here, lists whose slots then move. */
  ghost predicate Moves(x: Edges, op: Op) {
    && LogsColumns(x.cols, op) && RebuildsThere(Left(x.cols), op) && !RebuildsHere(x.cols.v, op)
    && !R.InOrder(LiveTable(x, op))
  }

  lemma BundledStays(x: D.Deferred)
    requires B.Bundled(x.v)
    ensures B.Bundled(Left(x))
  {
    if |x.v.cols| == 1 {
      assert x.v.cols == [] + [x.v.cols[0]];
      D.AliveAppend([], [x.v.cols[0]]);
    }
  }

  lemma ExtendAligned(x: A.Table, y: A.Table, news: seq<(string, N.Body)>)
    requires R.Paired(x) && Aligned(x, y)
    ensures var a, b := AddValues(x, news), AddValues(y, news);
      Aligned(a, b) && Aligned(R.Rebuild(a), R.Rebuild(b)) && (Aligned(a, R.Rebuild(b)) <==> R.InOrder(a))
  {
    var f := d => Rows.Code(Rows.Row(d) + B.Defaults(news));
    var a, b := AddValues(x, news), AddValues(y, news);
    RevaluePlaced(f, x.out, y.out);
    RevaluePlaced(f, x.inc, y.inc);
    E.RevaluePaired(f, x);
    RebuiltThereExact(a, b);
    RebuiltBoth(a, b);
  }

  lemma AddedTables(x: Edges, w: Kept, news: seq<(string, N.Body)>, strict: bool)
    requires Adds(x.cols.v, news) && Adds(w.v, news)
    requires !B.ExportFails(x.cols.v, news) && !B.ExportFails(w.v, news)
    ensures var a, b := AddValues(x.tab, news), AddValues(w.tab, news);
      && LiveTable(x, Add(news, strict)) == (if B.Bundled(x.cols.v) then R.Rebuild(a) else a)
      && ReplayTable(w, Add(news, strict)) == (if B.Bundled(w.v) then R.Rebuild(b) else b)
  {
  }

  lemma AddMoves(x: Edges, news: seq<(string, N.Body)>, strict: bool)
    requires Adds(x.cols.v, news) && (RebuildsThere(Left(x.cols), Add(news, strict)) <==> B.Bundled(Left(x.cols)))
    ensures Moves(x, Add(news, strict)) <==>
            B.Bundled(Left(x.cols)) && !B.Bundled(x.cols.v) && !R.InOrder(LiveTable(x, Add(news, strict)))
  {
  }

  lemma AddedAligned(x: Edges, w: Kept, news: seq<(string, N.Body)>, strict: bool)
    requires Tracks(x, w) && ColumnsOk(x.cols, Add(news, strict)) && Aligned(x.tab, w.tab)
    ensures Aligned(LiveTable(x, Add(news, strict)), ReplayTable(w, Add(news, strict)))
        <==> !Moves(x, Add(news, strict))
  {
    var q :| D.Tracks(x.cols, w.v, q);
    AddsTwice(x.cols, w.v, q, news, strict);
    SameThere(Left(x.cols), w.v, Add(news, strict));
    if Adds(x.cols.v, news) {
      AddMoves(x, news, strict);
      AddedTables(x, w, news, strict);
      ExtendAligned(x.tab, w.tab, news);
      if B.Bundled(x.cols.v) { BundledStays(x.cols); }
    } else {
      NothingAdded(x, w, news, strict);
    }
  }

  lemma NothingAdded(x: Edges, w: Kept, news: seq<(string, N.Body)>, strict: bool)
    requires !Adds(x.cols.v, news) && !Adds(w.v, news) && !RebuildsThere(Left(x.cols), Add(news, strict))
    ensures LiveTable(x, Add(news, strict)) == x.tab && ReplayTable(w, Add(news, strict)) == w.tab
    ensures !Moves(x, Add(news, strict))
  {
  }

  lemma CutAligned(x: A.Table, y: A.Table, cols: seq<N.Col>, names: seq<string>)
    requires R.Paired(x) && Aligned(x, y)
    ensures var a, b := DeleteValues(x, cols, names), DeleteValues(y, cols, names);
      Aligned(a, b) && (Aligned(a, R.Rebuild(b)) <==> R.InOrder(a))
  {
    var f := d => Rows.Code(Cut(Rows.Row(d), cols, names));
    RevaluePlaced(f, x.out, y.out);
    RevaluePlaced(f, x.inc, y.inc);
    E.RevaluePaired(f, x);
    RebuiltThereExact(DeleteValues(x, cols, names), DeleteValues(y, cols, names));
  }

  lemma DeletedAligned(x: Edges, w: Kept, names: seq<string>)
    requires Tracks(x, w) && Aligned(x.tab, w.tab) && Do(x.cols.v, Delete(names)).Some?
    ensures Aligned(LiveTable(x, Delete(names)), ReplayTable(w, Delete(names))) <==> !Moves(x, Delete(names))
  {
    TracksCols(x, w);
    var q :| D.Tracks(x.cols, w.v, q);
    SameThere(Left(x.cols), w.v, Delete(names));
    DeleteReplays(x.cols, w.v, names);
    CutAligned(x.tab, w.tab, w.v.cols, names);
  }

  /** A column change keeps every slot in its place exactly if it moves none. */
  lemma AlignedExact(x: Edges, w: Kept, op: Op)
    requires Tracks(x, w) && ColumnsOk(x.cols, op) && Aligned(x.tab, w.tab)
    ensures var r := ReplayOf(x, w, OnColumns(op));
      r.Some? && (Aligned(Live(x, OnColumns(op)).tab, r.value.tab) <==> !Moves(x, op))
  {
    ColumnsKeep(x, w, op);
    TablesAre(x, w, op);
    if op.Add? {
      AddedAligned(x, w, op.news, op.strict);
    } else if op.Delete? && Do(x.cols.v, op).Some? {
      DeletedAligned(x, w, op.names);
    } else {
      OthersStay(x, w, op);
    }
  }

  lemma TablesAre(x: Edges, w: Kept, op: Op)
    ensures Live(x, OnColumns(op)).tab == LiveTable(x, op)
    ensures var r := ReplayOf(x, w, OnColumns(op));
      r.Some? ==> r.value.tab == if LogsColumns(x.cols, op) then ReplayTable(w, op) else w.tab
    ensures op.Add? ==> LogsColumns(x.cols, op)
    ensures op.Delete? && Do(x.cols.v, op).Some? ==> LogsColumns(x.cols, op)
  {
  }

  lemma OthersStay(x: Edges, w: Kept, op: Op)
    requires !op.Add? && !(op.Delete? && Do(x.cols.v, op).Some?)
    ensures LiveTable(x, op) == x.tab && (LogsColumns(x.cols, op) ==> ReplayTable(w, op) == w.tab) && !Moves(x, op)
  {
  }

  // ------------------------------------------------------------------------------------
  // Changes of edges
  // ------------------------------------------------------------------------------------

  lemma EditPlaced(x: A.Adj, y: A.Adj, u: nat, k: nat, s: A.Slot, r: A.Slot)
    requires Placed(x, y) && k < |A.List(x, u)| && k < |A.List(y, u)| && Alike(s, r)
    ensures Placed(E.Edit(x, u, k, s), E.Edit(y, u, k, r))
  {
    forall v: nat ensures SamePlaces(A.List(E.Edit(x, u, k, s), v), A.List(E.Edit(y, u, k, r), v)) {
      PlacedAt(x, y, v);
    }
  }

  function Appended(x: A.Adj, u: nat, s: A.Slot): (r: A.Adj) { x[u := A.List(x, u) + [s]] }

  lemma PutPlaced(x: A.Adj, y: A.Adj, u: nat, s: A.Slot)
    requires Placed(x, y)
    ensures Placed(Appended(x, u, s), Appended(y, u, s))
  {
    forall v: nat ensures SamePlaces(A.List(Appended(x, u, s), v), A.List(Appended(y, u, s), v)) { PlacedAt(x, y, v); }
  }

  lemma PutAligned(x: A.Table, y: A.Table, src: nat, dst: nat, data: int, ts: nat)
    requires Aligned(x, y)
    ensures Aligned(A.PutEdge(x, src, dst, data, ts), A.PutEdge(y, src, dst, data, ts))
  {
    PutPlaced(x.out, y.out, src, A.Slot(dst, data, Some(ts)));
    PutPlaced(x.inc, y.inc, dst, A.Slot(src, data, Some(ts)));
  }

  lemma AddAligned(x: Edges, w: Kept, c: Change)
    requires c.AddEdge? && Tracks(x, w) && Aligned(x.tab, w.tab) && AddOk(x, c.vals)
    ensures var r := ReplayOf(x, w, c); r.Some? && Aligned(Live(x, c).tab, r.value.tab)
  {
    TracksCols(x, w);
    PutAligned(x.tab, w.tab, c.src, c.dst, Rows.Code(Taken(w.v.cols, c.vals).value), c.ts);
  }

  lemma RemoveAligned(x: Edges, w: Kept, e: A.Cap)
    requires Aligned(x.tab, w.tab) && Proper(x, RemoveEdge(e))
    ensures var r := ReplayOf(x, w, RemoveEdge(e)); r.Some? && Aligned(Live(x, RemoveEdge(e)).tab, r.value.tab)
  {
    AlignedRemoves(x, w, e);
    PlacedAt(x.tab.out, w.tab.out, e.src);
    PlacedAt(x.tab.inc, w.tab.inc, e.dst);
    assert Alike(OutSlot(x.tab, e), OutSlot(w.tab, e)) && Alike(InSlot(x.tab, e), InSlot(w.tab, e));
    DeleteIsEdit(x.tab, e);
    DeleteIsEdit(w.tab, e);
    EditPlaced(x.tab.out, w.tab.out, e.src, e.oe, OutSlot(x.tab, e).(stamp := None), OutSlot(w.tab, e).(stamp := None));
    EditPlaced(x.tab.inc, w.tab.inc, e.dst, e.ie, InSlot(x.tab, e).(stamp := None), InSlot(w.tab, e).(stamp := None));
  }

  /** No other edge to that neighbour looks the same. */
  predicate Single(l: seq<A.Slot>, i: nat)
    requires i < |l|
  {
    forall j | 0 <= j < |l| && A.Live(l[j]) && l[j].nbr == l[i].nbr && l[j].data == l[i].data :: j == i
  }

  lemma SetBothAligned(x: A.Table, y: A.Table, src: nat, dst: nat, oe: nat, ie: nat, k: nat, value: int)
    requires Aligned(x, y) && SetBoth(x, src, dst, oe, ie, k, value).Some?
    ensures var r := SetBoth(y, src, dst, oe, ie, k, value);
      r.Some? && Aligned(SetBoth(x, src, dst, oe, ie, k, value).value, r.value)
  {
    PlacedAt(x.out, y.out, src);
    PlacedAt(x.inc, y.inc, dst);
    SameNth(A.List(x.out, src), A.List(y.out, src), oe);
    SameNth(A.List(x.inc, dst), A.List(y.inc, dst), ie);
    var o, i := A.Nth(A.List(x.out, src), oe, 0).value, A.Nth(A.List(x.inc, dst), ie, 0).value;
    EditPlaced(x.out, y.out, src, o, Valued(A.List(x.out, src)[o], k, value), Valued(A.List(y.out, src)[o], k, value));
    EditPlaced(x.inc, y.inc, dst, i, Valued(A.List(x.inc, dst)[i], k, value), Valued(A.List(y.inc, dst)[i], k, value));
  }

  lemma SameNth(a: seq<A.Slot>, b: seq<A.Slot>, r: nat)
    requires SamePlaces(a, b)
    ensures A.Nth(a, r, 0) == A.Nth(b, r, 0)
    ensures var n := A.Nth(a, r, 0); n.Some? ==> Alike(a[n.value], b[n.value])
  {
    forall j | 0 <= j < |a| ensures A.Live(a[j]) <==> A.Live(b[j]) { assert Alike(a[j], b[j]); }
    A.NthIgnoresData(a, b, r, 0);
  }

  lemma FindsSingle(a: seq<A.Slot>, b: seq<A.Slot>, i: nat)
    requires SamePlaces(a, b) && i < |a| && A.Live(a[i]) && Single(a, i)
    ensures E.FirstLike(b, a[i].nbr, a[i].data, 0) == Some(i)
  {
    assert Alike(a[i], b[i]);
    var f := E.FirstLike(b, a[i].nbr, a[i].data, 0);
    if f.Some? { assert Alike(a[f.value], b[f.value]); }
  }

  lemma SetRowAligned(x: A.Table, y: A.Table, src: nat, dst: nat, oe: nat, ie: nat, k: nat, value: int)
    requires Aligned(x, y) && SetBoth(x, src, dst, oe, ie, k, value).Some?
    requires var o, i := A.Nth(A.List(x.out, src), oe, 0).value, A.Nth(A.List(x.inc, dst), ie, 0).value;
      E.Sides(src, dst, A.List(x.out, src)[o], A.List(x.inc, dst)[i]) && Single(A.List(x.inc, dst), i)
    ensures var r := SetRow(y, src, oe, k, value);
      r.Some? && Aligned(SetBoth(x, src, dst, oe, ie, k, value).value, r.value)
  {
    PlacedAt(x.out, y.out, src);
    PlacedAt(x.inc, y.inc, dst);
    SameNth(A.List(x.out, src), A.List(y.out, src), oe);
    SameNth(A.List(x.inc, dst), A.List(y.inc, dst), ie);
    var i := A.Nth(A.List(x.inc, dst), ie, 0).value;
    FindsSingle(A.List(x.inc, dst), A.List(y.inc, dst), i);
    SetBothAligned(x, y, src, dst, oe, ie, k, value);
    assert SetRow(y, src, oe, k, value) == SetBoth(y, src, dst, oe, ie, k, value);
  }

  // ------------------------------------------------------------------------------------
  // Whole transactions
  // ------------------------------------------------------------------------------------

  predicate Addresses(c: Change) { c.RemoveEdge? || c.SetEdge? }

  ghost predicate MovesSlots(x: Edges, c: Change) { c.OnColumns? && Moves(x, c.op) }

  /** What the transaction itself can see: nothing is reused, values fit, and columns keep their ids. */
  predicate Steady(x: Edges, c: Change)
    requires Proper(x, c)
  {
    match c
    case OnColumns(op) => ColumnsOk(x.cols, op)
    case AddEdge(_, _, vals, _) => AddOk(x, vals)
    case RemoveEdge(_) => true
    case SetEdge(_, dst, _, ie, col, _) =>
      Settable(x, col) ==>
        && ColumnStays(x, col)
        && (B.Bundled(Left(x.cols)) || Single(A.List(x.tab.inc, dst), A.Nth(A.List(x.tab.inc, dst), ie, 0).value))
  }

  lemma SteadyOk(x: Edges, w: Kept, c: Change)
    requires Tracks(x, w) && Proper(x, c) && Steady(x, c) && (Addresses(c) ==> Aligned(x.tab, w.tab))
    ensures StepOk(x, w, c)
  {
    match c
    case RemoveEdge(e) => AlignedRemoves(x, w, e);
    case SetEdge(_, _, _, _, col, _) => if Settable(x, col) { AlignedSets(x, w, c); }
    case _ =>
  }

  lemma SetAligned(x: Edges, w: Kept, c: Change)
    requires c.SetEdge? && Tracks(x, w) && Proper(x, c) && Steady(x, c) && Settable(x, c.col) && Aligned(x.tab, w.tab)
    ensures var r := ReplayOf(x, w, c); r.Some? && Aligned(Live(x, c).tab, r.value.tab)
  {
    SetPaired(x, c);
    SetIs(x, w, c);
    PlaceIs(x, c.col);
    TracksCols(x, w);
    if B.Bundled(w.v) {
      SetBothAligned(x.tab, w.tab, c.src, c.dst, c.oe, c.ie, 0, c.value);
    } else {
      SetRowAligned(x.tab, w.tab, c.src, c.dst, c.oe, c.ie, c.col, c.value);
    }
  }

  lemma SteadyAligned(x: Edges, w: Kept, c: Change)
    requires Tracks(x, w) && Proper(x, c) && Steady(x, c) && Aligned(x.tab, w.tab) && !MovesSlots(x, c)
    ensures var r := ReplayOf(x, w, c); r.Some? && Aligned(Live(x, c).tab, r.value.tab)
  {
    match c
    case OnColumns(op) => AlignedExact(x, w, op);
    case AddEdge(_, _, _, _) => AddAligned(x, w, c);
    case RemoveEdge(e) => RemoveAligned(x, w, e);
    case SetEdge(_, _, _, _, col, _) => if Settable(x, col) { SetAligned(x, w, c); }
  }

  ghost predicate MovesAt(x: Edges, cs: seq<Change>, k: nat)
    requires k < |cs|
  {
    MovesSlots(LiveAfter(x, cs, k), cs[k])
  }

  predicate SteadyAt(x: Edges, cs: seq<Change>, k: nat)
    requires k < |cs|
  {
    ProperAt(x, cs, k) && Steady(LiveAfter(x, cs, k), cs[k])
  }

  ghost predicate AlignedAt(x: Edges, w: Kept, cs: seq<Change>, k: nat)
    requires k <= |cs|
  {
    ReplayAfter(x, w, cs, k).Some? && Aligned(LiveAfter(x, cs, k).tab, ReplayAfter(x, w, cs, k).value.tab)
  }

  lemma NextSteady(x: Edges, w: Kept, cs: seq<Change>, k: nat)
    requires k < |cs| && TracksAt(x, w, cs, k) && SteadyAt(x, cs, k)
    requires Addresses(cs[k]) ==> AlignedAt(x, w, cs, k)
    ensures OkAt(x, w, cs, k) && TracksAt(x, w, cs, k + 1)
    ensures AlignedAt(x, w, cs, k) && !MovesAt(x, cs, k) ==> AlignedAt(x, w, cs, k + 1)
  {
    var y, z := LiveAfter(x, cs, k), ReplayAfter(x, w, cs, k).value;
    SteadyOk(y, z, cs[k]);
    NextTracks(x, w, cs, k);
    if AlignedAt(x, w, cs, k) && !MovesAt(x, cs, k) { SteadyAligned(y, z, cs[k]); }
  }

  ghost predicate Quiet(x: Edges, cs: seq<Change>, n: nat)
    requires n <= |cs|
  {
    forall i: nat | i < n :: !MovesAt(x, cs, i)
  }

  /** Everything the transaction does is steady, and no offset is used once slots have moved. */
  ghost predicate Careful(x: Edges, cs: seq<Change>) { forall k: nat | k < |cs| :: CarefulStep(x, cs, k) }

  ghost predicate CarefulStep(x: Edges, cs: seq<Change>, k: nat)
    requires k < |cs|
  {
    SteadyAt(x, cs, k) && (Addresses(cs[k]) ==> Quiet(x, cs, k))
  }

  ghost predicate HoldsAt(x: Edges, w: Kept, cs: seq<Change>, n: nat)
    requires n <= |cs|
  {
    TracksAt(x, w, cs, n) && (Quiet(x, cs, n) ==> AlignedAt(x, w, cs, n))
  }

  lemma NextHolds(x: Edges, w: Kept, cs: seq<Change>, k: nat)
    requires k < |cs| && HoldsAt(x, w, cs, k) && CarefulStep(x, cs, k)
    ensures HoldsAt(x, w, cs, k + 1)
  {
    NextSteady(x, w, cs, k);
    assert Quiet(x, cs, k + 1) ==> Quiet(x, cs, k) && !MovesAt(x, cs, k);
  }

  lemma NextCareful(x: Edges, w: Kept, cs: seq<Change>, k: nat)
    requires k < |cs| && Careful(x, cs) && HoldsAt(x, w, cs, k)
    ensures HoldsAt(x, w, cs, k + 1)
  {
    assert CarefulStep(x, cs, k);
    NextHolds(x, w, cs, k);
  }

  lemma CarefulTracks(x: Edges, w: Kept, cs: seq<Change>, n: nat, holds: nat -> bool)
    requires Careful(x, cs) && n <= |cs| && holds(0) && forall k: nat | k <= |cs| :: holds(k) <==> HoldsAt(x, w, cs, k)
    ensures holds(n)
  {
    forall k: nat | k < n && holds(k) ensures holds(k + 1) { NextCareful(x, w, cs, k); }
    Climb(holds, n);
  }

  lemma CarefulOk(x: Edges, w: Kept, cs: seq<Change>, k: nat)
    requires Tracks(x, w) && Aligned(x.tab, w.tab) && Careful(x, cs) && k < |cs|
    ensures OkAt(x, w, cs, k)
  {
    var holds := (i: nat) => i <= |cs| && HoldsAt(x, w, cs, i);
    assert HoldsAt(x, w, cs, 0);
    CarefulTracks(x, w, cs, k, holds);
    assert CarefulStep(x, cs, k);
    NextSteady(x, w, cs, k);
  }

  lemma CarefulProper(x: Edges, cs: seq<Change>)
    requires Careful(x, cs)
    ensures AllProper(x, cs)
  {
    forall k: nat | k < |cs| ensures ProperAt(x, cs, k) { assert CarefulStep(x, cs, k); }
  }

  /**
   * If no change addresses slots by offset after one that moves them in recovery only, then commit
   * and recovery agree wherever the transaction stops.
   */
  lemma OffsetsHold(x: Edges, w: Kept, cs: seq<Change>)
    requires Tracks(x, w) && Aligned(x.tab, w.tab) && Careful(x, cs)
    ensures forall k: nat | k <= |cs| :: AgreeAt(x, w, cs, k)
  {
    forall k: nat | k < |cs| ensures OkAt(x, w, cs, k) { CarefulOk(x, w, cs, k); }
    CarefulProper(x, cs);
    DeferredExact(x, w, cs);
  }
}
