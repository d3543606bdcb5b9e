/**
 * Exactly when an operation of an update transaction is taken back by its undo record, for every
 * kind of operation on the one state they share.
 */
module Restoring {
  import opened Wrappers
  import opened Database
  import opened Throwing
  import U = Undo
  import C = Columns
  import N = Renames
  import A = Adjacency
  import R = Rebuild

  // ------------------------------------------------------------------------------------
  // Cells
  // ------------------------------------------------------------------------------------

  lemma KeepMiddle(a: seq<N.Col>, b: seq<N.Col>, c: seq<N.Col>, gone: set<string>)
    requires forall j | 0 <= j < |a| :: a[j].name !in gone
    requires forall j | 0 <= j < |b| :: b[j].name in gone
    requires forall j | 0 <= j < |c| :: c[j].name !in gone
    ensures C.Keep((a + b) + c, gone) == a + c
  {
    C.AppendKeeps(a, b, gone);
    C.KeepAll(c, gone);
    C.KeepAppend(a + b, c, gone);
  }

  function NewCols(news: seq<(string, N.Body)>): (r: seq<N.Col>)
    ensures |r| == |news| && forall i | 0 <= i < |news| :: r[i] == N.Col(news[i].0, news[i].1, false)
  {
    seq(|news|, i requires 0 <= i < |news| => N.Col(news[i].0, news[i].1, false))
  }

  lemma {:induction false} AddedAre(v: C.VType, news: seq<(string, N.Body)>)
    ensures C.AddAll(v, news).cols == v.cols + NewCols(news)
  {
    if news == [] {
      assert v.cols + NewCols(news) == v.cols;
    } else {
      var p := news[..|news| - 1];
      AddedAre(v, p);
      assert NewCols(news) == NewCols(p) + [N.Col(news[|news| - 1].0, news[|news| - 1].1, false)];
    }
  }

  lemma OldStay(v: C.VType, news: seq<(string, N.Body)>, i: nat)
    requires C.Valid(v) && C.Fresh(v, news) && i <= |news|
    ensures forall j | 0 <= j < |v.cols| :: v.cols[j].name !in C.Elems(C.Names(news)[..i])
  {
    forall j: nat | j < |v.cols| ensures v.cols[j].name !in C.Elems(C.Names(news)[..i]) {
      assert v.cols[j].name in v.ids;
    }
  }

  lemma NewGo(news: seq<(string, N.Body)>, i: nat)
    requires i <= |news|
    ensures forall j | 0 <= j < i :: NewCols(news)[..i][j].name in C.Elems(C.Names(news)[..i])
  {
    var b := NewCols(news)[..i];
    forall j | 0 <= j < i ensures b[j].name in C.Elems(C.Names(news)[..i]) {
      assert C.Names(news)[..i][j] == news[j].0;
    }
  }

  lemma NewStay(v: C.VType, news: seq<(string, N.Body)>, i: nat)
    requires C.Fresh(v, news) && i <= |news|
    ensures forall j | 0 <= j < |news| - i :: NewCols(news)[i..][j].name !in C.Elems(C.Names(news)[..i])
  {
    var c := NewCols(news)[i..];
    forall j | 0 <= j < |c| ensures c[j].name !in C.Elems(C.Names(news)[..i]) {
      assert c[j].name == news[i + j].0;
    }
  }

  /** With the first i new columns gone, the old ones and the other new ones are left. */
  lemma NewKept(v: C.VType, news: seq<(string, N.Body)>, i: nat)
    requires C.Valid(v) && C.Fresh(v, news) && i <= |news|
    ensures C.Keep(C.AddAll(v, news).cols, C.Elems(C.Names(news)[..i])) == v.cols + NewCols(news)[i..]
  {
    var all_ := NewCols(news);
    AddedAre(v, news);
    assert all_ == all_[..i] + all_[i..];
    Assoc(v.cols, all_[..i], all_[i..]);
    OldStay(v, news, i);
    NewGo(news, i);
    NewStay(v, news, i);
    KeepMiddle(v.cols, all_[..i], all_[i..], C.Elems(C.Names(news)[..i]));
  }

  /** The next one is right behind the old ones. */
  lemma NewIsNext(v: C.VType, news: seq<(string, N.Body)>, i: nat)
    requires C.Valid(v) && C.Fresh(v, news) && i < |news|
    ensures var ids := C.DropAll(C.AddAll(v, news), C.Names(news)[..i]).ids;
      news[i].0 in ids && ids[news[i].0] == v.width
  {
    var w, gone := C.AddAll(v, news), C.Names(news)[..i];
    C.AddedValid(v, news);
    C.DropAllKeeps(w, gone);
    NewKept(v, news, i);
    assert C.DropAll(w, gone).cols[|v.cols|] == NewCols(news)[i..][0];
  }

  lemma Middle(a: seq<int>, b: seq<int>)
    requires b != []
    ensures (a + b)[..|a|] + (a + b)[|a| + 1..] == a + b[1..]
  {
  }

  lemma CutNext(v: C.VType, news: seq<(string, N.Body)>, props: seq<int>, cells: seq<int>, i: nat)
    requires C.Valid(v) && C.Fresh(v, news) && |props| == v.width && i < |news|
    requires CutCells(cells, C.AddAll(v, news), C.Names(news)[..i]) == props + Defaults(news)[i..]
    ensures CutCells(cells, C.AddAll(v, news), C.Names(news)[..i + 1]) == props + Defaults(news)[i..][1..]
  {
    NewIsNext(v, news, i);
    var p, n := C.Names(news)[..i], news[i].0;
    assert C.Names(news)[..i + 1] == p + [n];
    CutLast(cells, C.AddAll(v, news), p, n, props, Defaults(news)[i..]);
  }

  lemma CutLast(cells: seq<int>, w: C.VType, p: seq<string>, n: string, a: seq<int>, b: seq<int>)
    requires CutCells(cells, w, p) == a + b && b != []
    requires n in C.DropAll(w, p).ids && C.DropAll(w, p).ids[n] == |a|
    ensures CutCells(cells, w, p + [n]) == a + b[1..]
  {
    assert (p + [n])[..|p|] == p;
    Middle(a, b);
  }

  lemma {:induction false} CutBackTo(v: C.VType, news: seq<(string, N.Body)>, props: seq<int>, i: nat)
    requires C.Valid(v) && C.Fresh(v, news) && |props| == v.width && i <= |news|
    ensures CutCells(props + Defaults(news), C.AddAll(v, news), C.Names(news)[..i]) == props + Defaults(news)[i..]
  {
    if i > 0 {
      CutBackTo(v, news, props, i - 1);
      CutNext(v, news, props, props + Defaults(news), i - 1);
      Rest(Defaults(news), i - 1);
    }
  }

  lemma Rest(s: seq<int>, i: nat)
    requires i < |s|
    ensures s[i..][1..] == s[i + 1..]
  {
  }

  /** Taking the new columns away leaves the cells there were. */
  lemma CutBack(v: C.VType, news: seq<(string, N.Body)>, props: seq<int>)
    requires C.Valid(v) && C.Fresh(v, news) && |props| == v.width
    ensures CutCells(props + Defaults(news), C.AddAll(v, news), C.Names(news)) == props
  {
    CutBackTo(v, news, props, |news|);
    assert C.Names(news)[..|news|] == C.Names(news);
    assert props + Defaults(news)[|news|..] == props;
  }

  lemma NarrowBack(o: U.Graph, l: nat, v: C.VType, news: seq<(string, N.Body)>, x: seq<U.VRow>, y: seq<U.VRow>)
    requires C.Valid(v) && C.Fresh(v, news) && U.SameRows(o, l, Widen(x, news), y)
    requires forall k: nat | k < |x| && U.ValidLid(o, l, k) :: |x[k].props| == v.width
    ensures U.SameRows(o, l, x, Narrow(y, C.AddAll(v, news), C.Names(news)))
  {
    var z := Widen(x, news);
    forall k: nat | k < |x| && U.ValidLid(o, l, k)
      ensures CutCells(y[k].props, C.AddAll(v, news), C.Names(news)) == x[k].props
    {
      assert y[k].props == z[k].props;
      CutBack(v, news, x[k].props);
    }
  }

  // ------------------------------------------------------------------------------------
  // Columns of vertex types
  // ------------------------------------------------------------------------------------

  lemma DoColumnsIs(db: Db, l: nat, change: C.Op)
    requires DoColumns(db, l, change).Some?
    ensures l in db.g.kinds.valid && l in db.cols && l in db.g.rows && C.Do(db.cols[l], change).Some?
    ensures var s := C.Do(db.cols[l], change).value;
      var rows := if Adds(db.cols[l], change) then Widen(db.g.rows[l], change.news) else db.g.rows[l];
      DoColumns(db, l, change).value ==
      Step(db.(g := db.g.(rows := db.g.rows[l := rows]), cols := db.cols[l := s.v]), Some(OfColumns(l, s.undo)))
  {
  }

  lemma UndoColumnsIs(h: Db, l: nat, back: C.Undo, v: C.VType)
    requires l in h.g.kinds.valid && l in h.cols && l in h.g.rows && C.Undone(h.cols[l], back) == Some(v)
    ensures var rows := if back.UnAdd? then Narrow(h.g.rows[l], h.cols[l], back.names) else h.g.rows[l];
      UndoColumns(h, l, back) == Some(h.(g := h.g.(rows := h.g.rows[l := rows]), cols := h.cols[l := v]))
  {
  }

  lemma OneVertexTypeBack(p: set<Triplet>, o: Db, db: Db, h: Db, l: nat, left: seq<U.VRow>, w: C.VType,
                          back: seq<U.VRow>)
    requires l in db.g.rows && l in db.cols && U.SameRows(o.g, l, db.g.rows[l], back)
    requires Same(p, o, db.(g := db.g.(rows := db.g.rows[l := left]), cols := db.cols[l := w]), h)
    ensures Same(p, o, db, h.(g := h.g.(rows := h.g.rows[l := back]), cols := h.cols[l := db.cols[l]]))
  {
    U.OneRowBack(o.g, db.g.rows, h.g.rows, l, left, back);
    assert db.cols[l := w][l := db.cols[l]] == db.cols;
  }

  lemma ColumnsUndoneAt(p: set<Triplet>, o: Db, db: Db, l: nat, change: C.Op, h: Db, s: C.Step, left: seq<U.VRow>)
    requires Ok(db) && Filled(o, db) && l in db.cols && l in db.g.rows && l in db.g.kinds.valid
    requires C.Do(db.cols[l], change) == Some(s) && C.Undone(s.v, s.undo) == Some(db.cols[l])
    requires left == if Adds(db.cols[l], change) then Widen(db.g.rows[l], change.news) else db.g.rows[l]
    requires change.Add? ==> C.Fresh(db.cols[l], change.news)
    requires (change.Add? <==> s.undo.UnAdd?) && (change.Add? ==> s.undo.names == C.Names(change.news))
    requires Same(p, o, db.(g := db.g.(rows := db.g.rows[l := left]), cols := db.cols[l := s.v]), h)
    ensures Restored(p, o, db, UndoColumns(h, l, s.undo))
  {
    U.SameRowsAt(o.g, db.g.rows[l := left], h.g.rows, l);
    var back := if change.Add? then Narrow(h.g.rows[l], s.v, C.Names(change.news)) else h.g.rows[l];
    if change.Add? { AddedRowsBack(o, db, l, change, h.g.rows[l]); }
    OneVertexTypeBack(p, o, db, h, l, left, s.v, back);
    UndoColumnsIs(h, l, s.undo, db.cols[l]);
  }

  lemma ColumnsUndone(p: set<Triplet>, o: Db, db: Db, l: nat, change: C.Op, h: Db)
    requires Ok(db) && Filled(o, db) && Plain(db, OnColumns(l, change)) && DoColumns(db, l, change).Some?
    requires Same(p, o, DoColumns(db, l, change).value.db, h) && C.Restorable(db.cols[l], change)
    ensures Restored(p, o, db, UndoColumns(h, l, DoColumns(db, l, change).value.undo.value.back))
  {
    DoColumnsIs(db, l, change);
    var v, s := db.cols[l], C.Do(db.cols[l], change).value;
    C.UndoExact(v, change);
    var left := if Adds(v, change) then Widen(db.g.rows[l], change.news) else db.g.rows[l];
    ColumnsUndoneAt(p, o, db, l, change, h, s, left);
  }

  lemma AddedRowsBack(o: Db, db: Db, l: nat, change: C.Op, y: seq<U.VRow>)
    requires Ok(db) && Filled(o, db) && change.Add? && l in db.g.rows && l in db.cols
    requires C.Fresh(db.cols[l], change.news)
    requires U.SameRows(o.g, l, if Adds(db.cols[l], change) then Widen(db.g.rows[l], change.news) else db.g.rows[l], y)
    ensures C.Do(db.cols[l], change).Some?
    ensures U.SameRows(o.g, l, db.g.rows[l], Narrow(y, C.Do(db.cols[l], change).value.v, C.Names(change.news)))
  {
    var v, news := db.cols[l], change.news;
    C.AddUndone(v, news);
    if news == [] { WidenNothing(db.g.rows[l], news); }
    NarrowBack(o.g, l, v, news, db.g.rows[l], y);
  }

  lemma WidenNothing(rows: seq<U.VRow>, news: seq<(string, N.Body)>)
    requires news == []
    ensures Widen(rows, news) == rows
  {
    forall k | 0 <= k < |rows| ensures Widen(rows, news)[k] == rows[k] {
      assert rows[k].props + Defaults(news) == rows[k].props;
    }
  }

  lemma ColumnsMiss(p: set<Triplet>, o: Db, db: Db, l: nat, change: C.Op)
    requires Ok(db) && Plain(db, OnColumns(l, change)) && DoColumns(db, l, change).Some?
    requires var s := DoColumns(db, l, change).value; Restored(p, o, db, UndoColumns(s.db, l, s.undo.value.back))
    ensures C.Restorable(db.cols[l], change)
  {
    var s := DoColumns(db, l, change).value;
    var r := UndoColumns(s.db, l, s.undo.value.back).value;
    assert r.cols[l] == db.cols[l];
    C.UndoExact(db.cols[l], change);
  }

  // ------------------------------------------------------------------------------------
  // Columns of edge types
  // ------------------------------------------------------------------------------------

  /** One table, rebuilt when columns come and again when they go. */
  lemma RebuiltAt(p: set<Triplet>, t: Triplet, tab: A.Table, y: A.Table)
    requires A.TableOk(tab) && U.SameAt(p, t, R.Rebuild(tab), y) && (t in p ==> R.InOrder(tab))
    ensures U.SameAt(p, t, tab, R.Rebuild(y))
  {
    if t in p {
      R.RebuiltTwiceExact(tab, y);
    } else {
      R.ShowsRefl(tab);
      R.OkIsPaired(tab);
      R.RebuildShows(tab, tab);
      R.RebuildShows(tab, y);
    }
  }

  /** One table, rebuilt when columns go. */
  lemma RebuiltOnceAt(p: set<Triplet>, t: Triplet, tab: A.Table, y: A.Table)
    requires A.TableOk(tab) && U.SameAt(p, t, tab, y) && (t in p ==> R.InOrder(tab))
    ensures U.SameAt(p, t, tab, R.Rebuild(y))
  {
    if t in p { R.RebuiltOnceExact(tab, y); } else { R.OkIsPaired(tab); R.RebuildShows(tab, y); }
  }

  lemma DoEdgeColumnsIs(db: Db, t: Triplet, change: C.Op)
    requires DoEdgeColumns(db, t, change).Some? && t in db.ecols && !Throws(db.ecols[t], change)
    ensures U.Exists(db.g, t) && t in db.ecols && C.Do(db.ecols[t], change).Some?
    ensures var s := C.Do(db.ecols[t], change).value;
      var tab := if RebuildsNow(db.ecols[t], change) then R.Rebuild(db.g.tables[t]) else db.g.tables[t];
      DoEdgeColumns(db, t, change).value ==
      Step(db.(g := db.g.(tables := db.g.tables[t := tab]), ecols := db.ecols[t := s.v]),
        Some(OfEdgeColumns(t, s.undo)))
  {
  }

  lemma DoThrownIs(db: Db, t: Triplet, change: C.Op)
    requires DoEdgeColumns(db, t, change).Some? && t in db.ecols && Throws(db.ecols[t], change)
    ensures U.Exists(db.g, t) && change.Add? && change.news != [] && !C.Conflict(db.ecols[t], change.news)
    ensures DoEdgeColumns(db, t, change).value ==
            Step(db.(g := db.g.(tables := db.g.tables[t := db.g.tables[t]]),
                     ecols := db.ecols[t := Thrown(db.ecols[t], change.news)]),
                 Some(OfEdgeColumns(t, C.UnAdd(C.Names(change.news)))))
  {
    assert db.g.tables[t := db.g.tables[t]] == db.g.tables;
  }

  lemma UndoEdgeColumnsIs(h: Db, t: Triplet, back: C.Undo, v: C.VType)
    requires U.Exists(h.g, t) && t in h.ecols && C.Undone(h.ecols[t], back) == Some(v)
    requires !(back.UnAdd? && Wipes(h.ecols[t]))
    ensures var rebuilt := back.UnAdd? && back.names != [] && Bundled(v);
      var tab := if rebuilt then R.Rebuild(h.g.tables[t]) else h.g.tables[t];
      UndoEdgeColumns(h, t, back) == Some(h.(g := h.g.(tables := h.g.tables[t := tab]), ecols := h.ecols[t := v]))
  {
  }

  /** The lists are rebuilt at both times or at neither. */
  lemma BackIsLike(v: C.VType, change: C.Op)
    requires C.Valid(v) && C.Do(v, change).Some? && C.Restorable(v, change)
    ensures var u := C.Do(v, change).value.undo; (u.UnAdd? && u.names != []) <==> Adds(v, change)
  {
    if change.Add? { C.AddUndone(v, change.news); }
  }

  lemma OneEdgeTypeBack(p: set<Triplet>, o: Db, db: Db, h: Db, t: Triplet, left: A.Table, w: C.VType, back: A.Table)
    requires t in db.g.tables && t in db.ecols && U.SameAt(p, t, db.g.tables[t], back)
    requires Same(p, o, db.(g := db.g.(tables := db.g.tables[t := left]), ecols := db.ecols[t := w]), h)
    ensures Same(p, o, db, h.(g := h.g.(tables := h.g.tables[t := back]), ecols := h.ecols[t := db.ecols[t]]))
  {
    U.OneTableBack(p, db.g.tables, h.g.tables, t, left, back);
    assert db.ecols[t := w][t := db.ecols[t]] == db.ecols;
  }

  lemma NothingWiped(v: C.VType, change: C.Op)
    requires C.Valid(v) && C.Plain(v, change) && C.Do(v, change).Some? && C.Restorable(v, change)
    ensures !Wipes(C.Do(v, change).value.v)
  {
    C.StepValid(v, change);
  }

  lemma EdgeColumnsUndone(p: set<Triplet>, o: Db, db: Db, t: Triplet, change: C.Op, h: Db)
    requires Ok(db) && U.EdgesOk(db.g.tables) && Plain(db, OnEdgeColumns(t, change))
    requires DoEdgeColumns(db, t, change).Some? && !Throws(db.ecols[t], change)
    requires Same(p, o, DoEdgeColumns(db, t, change).value.db, h)
    requires C.Restorable(db.ecols[t], change) && Rebuildable(p, db, t, change)
    ensures Restored(p, o, db, UndoEdgeColumns(h, t, DoEdgeColumns(db, t, change).value.undo.value.back))
  {
    DoEdgeColumnsIs(db, t, change);
    var v, s := db.ecols[t], C.Do(db.ecols[t], change).value;
    var tab := db.g.tables[t];
    var left := if RebuildsNow(v, change) then R.Rebuild(tab) else tab;
    var again := Adds(v, change) && Bundled(v);
    assert C.Undone(s.v, s.undo) == Some(v) by { C.UndoExact(v, change); }
    BackIsLike(v, change);
    NothingWiped(v, change);
    U.SameEdgesAt(p, db.g.tables[t := left], h.g.tables, t);
    var back := if again then R.Rebuild(h.g.tables[t]) else h.g.tables[t];
    if RebuildsNow(v, change) {
      RebuiltAt(p, t, tab, h.g.tables[t]);
    } else if again {
      RebuiltOnceAt(p, t, tab, h.g.tables[t]);
    }
    OneEdgeTypeBack(p, o, db, h, t, left, s.v, back);
    UndoEdgeColumnsIs(h, t, s.undo, v);
  }

  /** The record of an addition that threw. */
  lemma ThrownUndone(p: set<Triplet>, o: Db, db: Db, t: Triplet, change: C.Op, h: Db)
    requires Ok(db) && U.EdgesOk(db.g.tables) && DoEdgeColumns(db, t, change).Some? && Throws(db.ecols[t], change)
    requires Same(p, o, DoEdgeColumns(db, t, change).value.db, h)
    requires Repeats(db.ecols[t], change.news) && Rebuildable(p, db, t, change)
    ensures Restored(p, o, db, UndoEdgeColumns(h, t, DoEdgeColumns(db, t, change).value.undo.value.back))
  {
    DoThrownIs(db, t, change);
    var v, tab := db.ecols[t], db.g.tables[t];
    var w, u := Thrown(v, change.news), C.UnAdd(C.Names(change.news));
    ThrownExact(v, change.news);
    WipesExact(v, change.news);
    U.SameEdgesAt(p, db.g.tables[t := tab], h.g.tables, t);
    var back := if Bundled(v) then R.Rebuild(h.g.tables[t]) else h.g.tables[t];
    if Bundled(v) { RebuiltOnceAt(p, t, tab, h.g.tables[t]); }
    OneEdgeTypeBack(p, o, db, h, t, tab, w, back);
    assert |C.Names(change.news)| == |change.news|;
    UndoEdgeColumnsIs(h, t, u, v);
  }

  lemma EdgeColumnsMiss(p: set<Triplet>, o: Db, db: Db, t: Triplet, change: C.Op)
    requires Ok(db) && U.EdgesOk(db.g.tables) && Plain(db, OnEdgeColumns(t, change))
    requires DoEdgeColumns(db, t, change).Some? && !Throws(db.ecols[t], change)
    requires var s := DoEdgeColumns(db, t, change).value;
      Restored(p, o, db, UndoEdgeColumns(s.db, t, s.undo.value.back))
    ensures C.Restorable(db.ecols[t], change) && Rebuildable(p, db, t, change)
  {
    var v := db.ecols[t];
    DoEdgeColumnsIs(db, t, change);
    var s := DoEdgeColumns(db, t, change).value;
    var r := UndoEdgeColumns(s.db, t, s.undo.value.back).value;
    assert r.ecols[t] == v;
    C.UndoExact(v, change);
    if Adds(v, change) && Bundled(v) && t in p { RebuildShowsOrder(p, o, db, t, change, r); }
  }

  /** The lists were rebuilt once or twice. */
  lemma RebuildShowsOrder(p: set<Triplet>, o: Db, db: Db, t: Triplet, change: C.Op, r: Db)
    requires U.EdgesOk(db.g.tables) && t in p && t in db.g.tables && t in db.ecols && t in r.g.tables
    requires Same(p, o, db, r)
    requires r.g.tables[t] == R.Rebuild(R.Rebuild(db.g.tables[t])) || r.g.tables[t] == R.Rebuild(db.g.tables[t])
    ensures R.InOrder(db.g.tables[t])
  {
    var tab := db.g.tables[t];
    U.SameEdgesAt(p, db.g.tables, r.g.tables, t);
    A.SameRefl(R.Rebuild(tab));
    R.RebuiltTwiceExact(tab, R.Rebuild(tab));
    R.RebuildKeepsExact(tab);
  }

  lemma ThrownMiss(p: set<Triplet>, o: Db, db: Db, t: Triplet, change: C.Op)
    requires Ok(db) && U.EdgesOk(db.g.tables) && DoEdgeColumns(db, t, change).Some? && Throws(db.ecols[t], change)
    requires var s := DoEdgeColumns(db, t, change).value;
      Restored(p, o, db, UndoEdgeColumns(s.db, t, s.undo.value.back))
    ensures Repeats(db.ecols[t], change.news) && Rebuildable(p, db, t, change)
  {
    var v := db.ecols[t];
    DoThrownIs(db, t, change);
    var s := DoEdgeColumns(db, t, change).value;
    var r := UndoEdgeColumns(s.db, t, s.undo.value.back).value;
    assert r.ecols[t] == v;
    ThrownExact(v, change.news);
    WipesExact(v, change.news);
    assert |C.Names(change.news)| == |change.news|;
    if Bundled(v) && t in p { RebuildShowsOrder(p, o, db, t, change, r); }
  }

  // ------------------------------------------------------------------------------------
  // Types
  // ------------------------------------------------------------------------------------

  lemma NoIncident(db: Db, g: U.Graph, l: nat)
    requires Ok(db) && l !in db.g.rows && g.tables.Keys == db.g.tables.Keys && g.kinds.valid <= db.g.rows.Keys
    ensures Incident(g, l) == {}
  {
  }

  lemma RowsWithout(o: U.Graph, x: map<nat, seq<U.VRow>>, y: map<nat, seq<U.VRow>>, l: nat)
    requires l !in x && U.SameVertices(o, x[l := []], y)
    ensures U.SameVertices(o, x, y - {l})
  {
    forall m | m in x ensures U.SameRows(o, m, x[m], y[m]) { assert x[l := []][m] == x[m]; }
  }

  lemma CreateVertexUndone(p: set<Triplet>, o: Db, db: Db, l: nat, v: C.VType, h: Db)
    requires Ok(db) && l !in db.g.rows && l !in db.g.kinds.valid
    requires Same(p, o, DoType(db, CreateVertexType(l, v)).value.db, h)
    ensures Restored(p, o, db, UndoType(h, UnCreateVertexType(l)))
  {
    var k := h.g.kinds;
    var g' := h.g.(rows := h.g.rows - {l}, kinds := k.(valid := k.valid - {l}));
    assert g'.kinds.valid == db.g.kinds.valid;
    NoIncident(db, g', l);
    assert h.g.tables - {} == h.g.tables && h.ecols - {} == h.ecols;
    assert db.cols[l := v] - {l} == db.cols;
    RowsWithout(o.g, db.g.rows, h.g.rows, l);
  }

  lemma TablesWithout(p: set<Triplet>, x: U.Tables, y: U.Tables, t: Triplet, tab: A.Table)
    requires t !in x && U.SameEdges(p, x[t := tab], y)
    ensures U.SameEdges(p, x, y - {t})
  {
    forall k | k in x ensures U.SameAt(p, k, x[k], y[k]) { assert x[t := tab][k] == x[k]; }
  }

  lemma CreateEdgeUndone(p: set<Triplet>, o: Db, db: Db, t: Triplet, v: C.VType, h: Db)
    requires Ok(db) && DoType(db, CreateEdgeType(t, v)).Some?
    requires Same(p, o, DoType(db, CreateEdgeType(t, v)).value.db, h)
    ensures Restored(p, o, db, UndoType(h, UnCreateEdgeType(t)))
  {
    assert db.g.kinds.soft - {t} == db.g.kinds.soft;
    assert db.ecols[t := v] - {t} == db.ecols;
    TablesWithout(p, db.g.tables, h.g.tables, t, A.Table(map[], map[]));
  }

  lemma DropVertexUndone(p: set<Triplet>, o: Db, db: Db, l: nat, h: Db)
    requires Ok(db) && DoType(db, DropVertexType(l)).Some? && Same(p, o, DoType(db, DropVertexType(l)).value.db, h)
    ensures var u := DoType(db, DropVertexType(l)).value.undo; u.Some? && Restored(p, o, db, UndoType(h, u.value))
  {
    assert h.g.kinds.valid + {l} == db.g.kinds.valid;
  }

  lemma DropEdgeUndone(p: set<Triplet>, o: Db, db: Db, t: Triplet, h: Db)
    requires Ok(db) && DoType(db, DropEdgeType(t)).Some? && Same(p, o, DoType(db, DropEdgeType(t)).value.db, h)
    ensures var u := DoType(db, DropEdgeType(t)).value.undo; u.Some? && Restored(p, o, db, UndoType(h, u.value))
  {
    assert h.g.kinds.soft - {t} == db.g.kinds.soft;
  }

  lemma TypeUndone(p: set<Triplet>, o: Db, db: Db, op: Op, h: Db)
    requires Ok(db) && DoType(db, op).Some? && Same(p, o, DoType(db, op).value.db, h)
    requires op.CreateVertexType? ==> op.l !in db.g.rows
    ensures DoType(db, op).value.undo.Some? && Restored(p, o, db, UndoType(h, DoType(db, op).value.undo.value))
  {
    match op
    case CreateVertexType(l, v) => CreateVertexUndone(p, o, db, l, v, h);
    case CreateEdgeType(t, v) => CreateEdgeUndone(p, o, db, t, v, h);
    case DropVertexType(l) => DropVertexUndone(p, o, db, l, h);
    case DropEdgeType(t) => DropEdgeUndone(p, o, db, t, h);
  }

  // ------------------------------------------------------------------------------------
  // Any operation
  // ------------------------------------------------------------------------------------

  lemma DataUndone(p: set<Triplet>, o: Db, db: Db, ts: nat, op: U.Op, h: Db)
    requires U.EdgesOk(db.g.tables) && DoData(db, ts, op).Some? && U.Touched(db.g, op) <= p
    requires Same(p, o, DoData(db, ts, op).value.db, h) && U.Restorable(o.g, db.g, ts, op)
    ensures Restored(p, o, db, TakenBack(h, ts, DoData(db, ts, op).value.undo))
  {
    U.UndoneFromAnywhere(p, o.g, db.g, ts, op, h.g);
  }

  lemma DoTypeIs(db: Db, ts: nat, op: Op)
    requires !op.OnData? && !op.OnColumns? && !op.OnEdgeColumns?
    ensures Do(db, ts, op) == DoType(db, op)
    ensures DoType(db, op).Some? && DoType(db, op).value.undo.Some? ==>
              forall h :: Undone(h, ts, DoType(db, op).value.undo.value) == UndoType(h, DoType(db, op).value.undo.value)
  {
  }

  /** The operation is carried out on a sound state, within its condition, and `h` shows what it left. */
  ghost predicate Ready(p: set<Triplet>, o: Db, db: Db, ts: nat, op: Op, h: Db) {
    && Ok(db) && Filled(o, db) && U.EdgesOk(db.g.tables) && Plain(db, op) && Do(db, ts, op).Some?
    && Touched(db, op) <= p && Same(p, o, Do(db, ts, op).value.db, h) && Restorable(p, o, db, ts, op)
  }

  ghost predicate ComesBack(p: set<Triplet>, o: Db, db: Db, ts: nat, op: Op, h: Db) {
    Do(db, ts, op).Some? && Restored(p, o, db, TakenBack(h, ts, Do(db, ts, op).value.undo))
  }

  lemma ColumnsComeBack(p: set<Triplet>, o: Db, db: Db, ts: nat, l: nat, change: C.Op, h: Db)
    requires Ready(p, o, db, ts, OnColumns(l, change), h)
    ensures ComesBack(p, o, db, ts, OnColumns(l, change), h)
  {
    DoColumnsIs(db, l, change);
    ColumnsUndone(p, o, db, l, change, h);
  }

  /** What an edge-column operation and its record come to. */
  lemma OnEdgeColumnsIs(db: Db, ts: nat, t: Triplet, change: C.Op, h: Db, back: C.Undo)
    ensures Do(db, ts, OnEdgeColumns(t, change)) == DoEdgeColumns(db, t, change)
    ensures TakenBack(h, ts, Some(OfEdgeColumns(t, back))) == UndoEdgeColumns(h, t, back)
  {
  }

  lemma ThrownComesBack(p: set<Triplet>, o: Db, db: Db, ts: nat, t: Triplet, change: C.Op, h: Db)
    requires Ready(p, o, db, ts, OnEdgeColumns(t, change), h) && t in db.ecols && Throws(db.ecols[t], change)
    ensures ComesBack(p, o, db, ts, OnEdgeColumns(t, change), h)
  {
    OnEdgeColumnsIs(db, ts, t, change, h, C.UnAdd(C.Names(change.news)));
    assert DoEdgeColumns(db, t, change).value.undo == Some(OfEdgeColumns(t, C.UnAdd(C.Names(change.news))));
    ThrownUndone(p, o, db, t, change, h);
  }

  lemma EdgeColumnsComeBack(p: set<Triplet>, o: Db, db: Db, ts: nat, t: Triplet, change: C.Op, h: Db)
    requires Ready(p, o, db, ts, OnEdgeColumns(t, change), h) && t in db.ecols && !Throws(db.ecols[t], change)
    ensures ComesBack(p, o, db, ts, OnEdgeColumns(t, change), h)
  {
    DoEdgeColumnsIs(db, t, change);
    EdgeColumnsUndone(p, o, db, t, change, h);
  }

  lemma TypesComeBack(p: set<Triplet>, o: Db, db: Db, ts: nat, op: Op, h: Db)
    requires Ready(p, o, db, ts, op, h) && !op.OnData? && !op.OnColumns? && !op.OnEdgeColumns?
    ensures ComesBack(p, o, db, ts, op, h)
  {
    DoTypeIs(db, ts, op);
    TypeUndone(p, o, db, op, h);
  }

  /** From any database that shows what the operation left behind. */
  lemma UndoneFromAnywhere(p: set<Triplet>, o: Db, db: Db, ts: nat, op: Op, h: Db)
    requires Ready(p, o, db, ts, op, h)
    ensures ComesBack(p, o, db, ts, op, h)
  {
    if op.OnData? {
      DataUndone(p, o, db, ts, op.op, h);
    } else if op.OnColumns? {
      ColumnsComeBack(p, o, db, ts, op.l, op.change, h);
    } else if op.OnEdgeColumns? {
      if Throws(db.ecols[op.t], op.change) {
        ThrownComesBack(p, o, db, ts, op.t, op.change, h);
      } else {
        EdgeColumnsComeBack(p, o, db, ts, op.t, op.change, h);
      }
    } else {
      TypesComeBack(p, o, db, ts, op, h);
    }
  }

  lemma SameRefl(p: set<Triplet>, o: Db, db: Db)
    ensures Same(p, o, db, db)
  {
    U.SameReflexive(p, o.g, db.g);
  }

  lemma DataMisses(p: set<Triplet>, o: Db, db: Db, ts: nat, op: U.Op)
    requires U.EdgesOk(db.g.tables) && DoData(db, ts, op).Some? && U.Touched(db.g, op) <= p
    requires Restored(p, o, db, TakenBack(DoData(db, ts, op).value.db, ts, DoData(db, ts, op).value.undo))
    ensures U.Restorable(o.g, db.g, ts, op)
  {
    U.UndoExact(p, o.g, db.g, ts, op);
  }

  lemma ColumnsMissed(p: set<Triplet>, o: Db, db: Db, ts: nat, l: nat, change: C.Op)
    requires Ok(db) && Plain(db, OnColumns(l, change)) && DoColumns(db, l, change).Some?
    requires var s := DoColumns(db, l, change).value; Restored(p, o, db, TakenBack(s.db, ts, s.undo))
    ensures C.Restorable(db.cols[l], change)
  {
    DoColumnsIs(db, l, change);
    ColumnsMiss(p, o, db, l, change);
  }

  lemma ThrownMissed(p: set<Triplet>, o: Db, db: Db, ts: nat, t: Triplet, change: C.Op)
    requires Ok(db) && U.EdgesOk(db.g.tables) && DoEdgeColumns(db, t, change).Some? && Throws(db.ecols[t], change)
    requires var s := DoEdgeColumns(db, t, change).value; Restored(p, o, db, TakenBack(s.db, ts, s.undo))
    ensures Repeats(db.ecols[t], change.news) && Rebuildable(p, db, t, change)
  {
    DoThrownIs(db, t, change);
    ThrownMiss(p, o, db, t, change);
  }

  lemma KeptMissed(p: set<Triplet>, o: Db, db: Db, ts: nat, t: Triplet, change: C.Op)
    requires Ok(db) && U.EdgesOk(db.g.tables) && Plain(db, OnEdgeColumns(t, change))
    requires DoEdgeColumns(db, t, change).Some? && !Throws(db.ecols[t], change)
    requires var s := DoEdgeColumns(db, t, change).value; Restored(p, o, db, TakenBack(s.db, ts, s.undo))
    ensures C.Restorable(db.ecols[t], change) && Rebuildable(p, db, t, change)
  {
    DoEdgeColumnsIs(db, t, change);
    EdgeColumnsMiss(p, o, db, t, change);
  }

  lemma EdgeColumnsMissed(p: set<Triplet>, o: Db, db: Db, ts: nat, t: Triplet, change: C.Op)
    requires Ok(db) && U.EdgesOk(db.g.tables) && Plain(db, OnEdgeColumns(t, change))
    requires DoEdgeColumns(db, t, change).Some?
    requires var s := DoEdgeColumns(db, t, change).value; Restored(p, o, db, TakenBack(s.db, ts, s.undo))
    ensures Restorable(p, o, db, ts, OnEdgeColumns(t, change))
  {
    if Throws(db.ecols[t], change) {
      ThrownMissed(p, o, db, ts, t, change);
    } else {
      KeptMissed(p, o, db, ts, t, change);
    }
  }

  lemma TypeMissed(p: set<Triplet>, o: Db, db: Db, ts: nat, op: Op)
    requires !op.OnData? && !op.OnColumns? && !op.OnEdgeColumns? && Do(db, ts, op).Some?
    requires Restored(p, o, db, TakenBack(Do(db, ts, op).value.db, ts, Do(db, ts, op).value.undo))
    ensures Restorable(p, o, db, ts, op)
  {
  }

  lemma UndoMisses(p: set<Triplet>, o: Db, db: Db, ts: nat, op: Op)
    requires Ok(db) && U.EdgesOk(db.g.tables) && Plain(db, op) && Do(db, ts, op).Some? && Touched(db, op) <= p
    requires Restored(p, o, db, TakenBack(Do(db, ts, op).value.db, ts, Do(db, ts, op).value.undo))
    ensures Restorable(p, o, db, ts, op)
  {
    match op
    case OnData(d) => DataMisses(p, o, db, ts, d);
    case OnColumns(l, change) => ColumnsMissed(p, o, db, ts, l, change);
    case OnEdgeColumns(t, change) => EdgeColumnsMissed(p, o, db, ts, t, change);
    case _ => TypeMissed(p, o, db, ts, op);
  }

  /** The undo record of an operation takes it back exactly under the operation's condition. */
  lemma UndoExact(p: set<Triplet>, o: Db, db: Db, ts: nat, op: Op)
    requires Ok(db) && Filled(o, db) && U.EdgesOk(db.g.tables) && Plain(db, op) && Do(db, ts, op).Some?
    requires Touched(db, op) <= p
    ensures Restored(p, o, db, TakenBack(Do(db, ts, op).value.db, ts, Do(db, ts, op).value.undo))
            <==> Restorable(p, o, db, ts, op)
  {
    var s := Do(db, ts, op).value;
    if Restorable(p, o, db, ts, op) {
      SameRefl(p, o, s.db);
      UndoneFromAnywhere(p, o, db, ts, op, s.db);
    }
    if Restored(p, o, db, TakenBack(s.db, ts, s.undo)) { UndoMisses(p, o, db, ts, op); }
  }
}
