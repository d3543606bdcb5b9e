/**
 * What the changes of an edge type do, in the transaction, in recovery and at commit: slot by slot and
 * cell by cell, said of the lists and the rows of values that their slots carry.
 */
module EdgeEffects {
  import opened Wrappers
  import opened Columns
  import opened EdgeColumns
  import opened EdgeDeferral
  import opened Rows
  import A = Adjacency
  import B = Database
  import CE = ColumnEffects
  import D = Deferral
  import DBE = DatabaseEffects
  import DE = DataEffects
  import DFE = DeferralEffects
  import E = EdgeRecords
  import N = Renames
  import R = Rebuild

  // ------------------------------------------------------------------------------------
  // Rows
  // ------------------------------------------------------------------------------------

  /** An edge as one side shows it: its other end and its values. */
  datatype Shown = Shown(nbr: nat, row: seq<int>)

  /** What a list shows, in order. */
  function ShownBy(l: seq<A.Slot>): (r: seq<Shown>) {
    if l == [] then []
    else
      var s, r := l[|l| - 1], ShownBy(l[..|l| - 1]);
      if s.stamp.Some? then r + [Shown(s.nbr, Row(s.data))] else r
  }

  /** The old cells in front, the defaults of the new columns behind them. */
  predicate Extended(a: seq<int>, b: seq<int>, news: seq<(string, N.Body)>) {
    && |b| == |a| + |news| && (forall j | 0 <= j < |a| :: b[j] == a[j])
    && forall i | 0 <= i < |news| :: b[|a| + i] == news[i].1.value
  }

  /** The column is the first of a name that goes. */
  predicate Named(cols: seq<N.Col>, names: seq<string>, j: nat) {
    j < |cols| && CE.NameAt(cols, cols[j].name, j) && cols[j].name in names
  }

  function CellsBefore(cols: seq<N.Col>, names: seq<string>, n: nat): (k: nat) {
    if n == 0 then 0 else CellsBefore(cols, names, n - 1) + (if Named(cols, names, n - 1) then 0 else 1)
  }

  /** The cell of a column that stays comes behind those of the columns that stay in front of it. */
  predicate StaysAt(a: seq<int>, b: seq<int>, cols: seq<N.Col>, names: seq<string>, j: nat)
    requires j < |a|
  {
    Named(cols, names, j) || (CellsBefore(cols, names, j) < |b| && b[CellsBefore(cols, names, j)] == a[j])
  }

  predicate Shortened(a: seq<int>, b: seq<int>, cols: seq<N.Col>, names: seq<string>) {
    |b| == CellsBefore(cols, names, |a|) && forall j: nat | j < |a| :: StaysAt(a, b, cols, names, j)
  }

  // ------------------------------------------------------------------------------------
  // Lists
  // ------------------------------------------------------------------------------------

  /** Edge by edge the same other end, and rows that are related. */
  ghost predicate Each(a: seq<Shown>, b: seq<Shown>, p: (seq<int>, seq<int>) -> bool) {
    |b| == |a| && forall k | 0 <= k < |a| :: b[k].nbr == a[k].nbr && p(a[k].row, b[k].row)
  }

  /** Outgoing lists in their order, incoming lists in some order. */
  ghost predicate EachEdge(x: A.Table, y: A.Table, p: (seq<int>, seq<int>) -> bool) {
    && (forall u: nat :: Each(ShownBy(DE.Slots(x.out, u)), ShownBy(DE.Slots(y.out, u)), p))
    && (forall w: nat :: EachIn(DE.Slots(x.inc, w), DE.Slots(y.inc, w), p))
  }

  ghost predicate EachIn(a: seq<A.Slot>, b: seq<A.Slot>, p: (seq<int>, seq<int>) -> bool) {
    exists m :: Each(ShownBy(a), m, p) && multiset(m) == multiset(ShownBy(b))
  }

  /** Slot by slot in place. */
  ghost predicate EachSlot(x: A.Adj, y: A.Adj, p: (seq<int>, seq<int>) -> bool) {
    forall u: nat :: |DE.Slots(y, u)| == |DE.Slots(x, u)| && forall k | 0 <= k < |DE.Slots(x, u)| ::
      SlotChanged(DE.Slots(x, u)[k], DE.Slots(y, u)[k], p)
  }

  ghost predicate SlotChanged(a: A.Slot, b: A.Slot, p: (seq<int>, seq<int>) -> bool) {
    b.nbr == a.nbr && b.stamp == a.stamp && p(Row(a.data), Row(b.data))
  }

  lemma {:induction false} ShownIs(l: seq<A.Slot>)
    ensures |ShownBy(l)| == |R.Neighbours(l)|
    ensures forall k | 0 <= k < |ShownBy(l)| :: ShownBy(l)[k] == Shown(R.Neighbours(l)[k].0, Row(R.Neighbours(l)[k].1))
  {
    if l != [] { ShownIs(l[..|l| - 1]); }
  }

  function AsShown(p: (nat, int)): (s: Shown) { Shown(p.0, Row(p.1)) }

  lemma ShownMap(l: seq<A.Slot>)
    ensures ShownBy(l) == E.Map(p => AsShown(p), R.Neighbours(l))
  {
    ShownIs(l);
  }

  lemma AlikeShown(a: seq<A.Slot>, b: seq<A.Slot>)
    requires E.Visible(a) == E.Visible(b)
    ensures multiset(ShownBy(a)) == multiset(ShownBy(b))
  {
    ShownMap(a);
    ShownMap(b);
    E.MapSame(p => AsShown(p), R.Neighbours(a), R.Neighbours(b));
  }

  /** The rows change as the numbers do. */
  ghost predicate Follows(f: int -> int, p: (seq<int>, seq<int>) -> bool) { forall d: int :: p(Row(d), Row(f(d))) }

  lemma RevaluedShown(f: int -> int, l: seq<A.Slot>, p: (seq<int>, seq<int>) -> bool)
    requires Follows(f, p)
    ensures Each(ShownBy(l), ShownBy(E.Map(s => E.Valued(f, s), l)), p)
  {
    ShownIs(l);
    ShownIs(E.Map(s => E.Valued(f, s), l));
    E.RevaluedSees(f, l);
  }

  lemma RevaluedEach(f: int -> int, t: A.Table, p: (seq<int>, seq<int>) -> bool)
    requires Follows(f, p)
    ensures EachEdge(t, E.RevalueBoth(f, t), p)
    ensures EachSlot(t.out, E.RevalueBoth(f, t).out, p) && EachSlot(t.inc, E.RevalueBoth(f, t).inc, p)
  {
    var y := E.RevalueBoth(f, t);
    forall u: nat
      ensures DE.Slots(y.out, u) == E.Map(s => E.Valued(f, s), DE.Slots(t.out, u))
      ensures DE.Slots(y.inc, u) == E.Map(s => E.Valued(f, s), DE.Slots(t.inc, u))
    {
      E.RevalueAt(f, t.out, u);
      E.RevalueAt(f, t.inc, u);
    }
    forall u: nat ensures Each(ShownBy(DE.Slots(t.out, u)), ShownBy(DE.Slots(y.out, u)), p) {
      RevaluedShown(f, DE.Slots(t.out, u), p);
    }
    forall w: nat ensures EachIn(DE.Slots(t.inc, w), DE.Slots(y.inc, w), p) {
      RevaluedShown(f, DE.Slots(t.inc, w), p);
      assert Each(ShownBy(DE.Slots(t.inc, w)), ShownBy(DE.Slots(y.inc, w)), p);
    }
  }

  /** A rebuild keeps what outgoing lists show in order, and what incoming ones show in some order. */
  lemma RebuiltEach(x: A.Table, y: A.Table, p: (seq<int>, seq<int>) -> bool)
    requires EachEdge(x, y, p) && R.Paired(y)
    ensures EachEdge(x, R.Rebuild(y), p)
  {
    var z := R.Rebuild(y);
    R.ShowsRefl(y);
    R.RebuildShows(y, y);
    forall u: nat ensures Each(ShownBy(DE.Slots(x.out, u)), ShownBy(DE.Slots(z.out, u)), p) {
      R.RebuildOut(y, u);
      R.SqueezeSees(A.List(y.out, u));
      ShownMap(A.List(y.out, u));
      ShownMap(A.List(z.out, u));
      assert Each(ShownBy(DE.Slots(x.out, u)), ShownBy(DE.Slots(y.out, u)), p);
    }
    forall w: nat ensures EachIn(DE.Slots(x.inc, w), DE.Slots(z.inc, w), p) {
      assert EachIn(DE.Slots(x.inc, w), DE.Slots(y.inc, w), p);
      var m :| Each(ShownBy(DE.Slots(x.inc, w)), m, p) && multiset(m) == multiset(ShownBy(DE.Slots(y.inc, w)));
      E.ShowsAt(y, z, w);
      AlikeShown(A.List(y.inc, w), A.List(z.inc, w));
    }
  }

  /** Every slot is visible from the start, and the incoming lists are sorted by the other end. */
  ghost predicate Packed(t: A.Table) { forall u: nat :: Fresh(DE.Slots(t.out, u)) && Sorted(DE.Slots(t.inc, u)) }

  predicate Fresh(l: seq<A.Slot>) { forall k | 0 <= k < |l| :: l[k].stamp == Some(0) }

  predicate Sorted(l: seq<A.Slot>) { Fresh(l) && forall j, k | 0 <= j < k < |l| :: l[j].nbr <= l[k].nbr }

  lemma {:induction false} SqueezeFresh(l: seq<A.Slot>)
    ensures Fresh(R.Squeeze(l))
  {
    if l != [] { SqueezeFresh(l[..|l| - 1]); }
  }

  lemma {:induction false} InFromFresh(l: seq<A.Slot>, w: nat, u: nat)
    ensures Fresh(R.InFrom(l, w, u)) && forall k | 0 <= k < |R.InFrom(l, w, u)| :: R.InFrom(l, w, u)[k].nbr == u
  {
    if l != [] { InFromFresh(l[..|l| - 1], w, u); }
  }

  lemma {:induction false} ExportedSorted(out: A.Adj, w: nat, n: nat)
    ensures Sorted(R.Exported(out, w, n))
    ensures forall k | 0 <= k < |R.Exported(out, w, n)| :: R.Exported(out, w, n)[k].nbr < n
  {
    if n > 0 {
      ExportedSorted(out, w, n - 1);
      InFromFresh(A.List(out, n - 1), w, n - 1);
    }
  }

  lemma RebuiltPacked(t: A.Table)
    ensures Packed(R.Rebuild(t))
  {
    var y := R.Rebuild(t);
    forall u: nat ensures Fresh(DE.Slots(y.out, u)) && Sorted(DE.Slots(y.inc, u)) {
      if u in t.out { SqueezeFresh(t.out[u]); }
      if u in t.inc { ExportedSorted(t.out, u, R.Bound(t.out)); }
    }
  }

  // ------------------------------------------------------------------------------------
  // Column changes
  // ------------------------------------------------------------------------------------

  /** The names are new to the schema, so that nothing throws, and the lists can be exported. */
  ghost predicate ComesThrough(v: VType, news: seq<(string, N.Body)>) {
    && news != [] && (forall i: nat | i < |news| :: !DBE.Known(v, news, i))
    && (forall i: nat | i < |news| :: !CE.Knows(v, news[i].0))
    && !(|v.cols| == 0 && |news| >= 2 && !news[0].1.varchar)
  }

  lemma ComesIs(v: VType, news: seq<(string, N.Body)>)
    ensures ComesThrough(v, news) <==> Adds(v, news) && !B.ExportFails(v, news)
  {
    DBE.ConflictIs(v, Add(news, true));
    forall i: nat | i < |news| ensures B.Known(v, news, i) <==> DBE.Known(v, news, i) { DBE.KnownIs(v, news, i); }
    var k := B.FirstKnown(v, news, 0);
    assert k < |news| ==> DBE.Known(v, news, k);
    forall i: nat | i < |news| && k == |news| ensures !DBE.Known(v, news, i) { assert !B.Known(v, news, i); }
  }

  /** The slots hold the values themselves. */
  predicate InSlots(cols: seq<N.Col>) { |cols| == 0 || (|cols| == 1 && !cols[0].body.varchar) }

  lemma ExtendFollows(news: seq<(string, N.Body)>)
    ensures Follows(d => Code(Row(d) + B.Defaults(news)), (a, b) => Extended(a, b, news))
  {
    forall d: int ensures Extended(Row(d), Row(Code(Row(d) + B.Defaults(news))), news) {
      RowCode(Row(d) + B.Defaults(news));
    }
  }

  lemma ValuesAdded(t: A.Table, news: seq<(string, N.Body)>)
    ensures var y := AddValues(t, news);
      && EachEdge(t, y, (a, b) => Extended(a, b, news))
      && EachSlot(t.out, y.out, (a, b) => Extended(a, b, news))
      && EachSlot(t.inc, y.inc, (a, b) => Extended(a, b, news))
  {
    ExtendFollows(news);
    RevaluedEach(d => Code(Row(d) + B.Defaults(news)), t, (a, b) => Extended(a, b, news));
  }

  lemma ValuesAddedPaired(t: A.Table, news: seq<(string, N.Body)>)
    requires R.Paired(t)
    ensures R.Paired(AddValues(t, news))
  {
    E.RevaluePaired(d => Code(Row(d) + B.Defaults(news)), t);
  }

  /** In a table y every edge of x has the new cells; in place, unless the lists were rebuilt. */
  ghost predicate Grown(x: A.Table, y: A.Table, news: seq<(string, N.Body)>, rebuilt: bool) {
    && EachEdge(x, y, (a, b) => Extended(a, b, news)) && (rebuilt ==> Packed(y))
    && (!rebuilt ==> EachSlot(x.out, y.out, (a, b) => Extended(a, b, news))
                     && EachSlot(x.inc, y.inc, (a, b) => Extended(a, b, news)))
  }

  lemma GrownEither(t: A.Table, news: seq<(string, N.Body)>)
    requires R.Paired(t)
    ensures Grown(t, AddValues(t, news), news, false) && Grown(t, R.Rebuild(AddValues(t, news)), news, true)
  {
    ValuesAdded(t, news);
    ValuesAddedPaired(t, news);
    RebuiltEach(t, AddValues(t, news), (a, b) => Extended(a, b, news));
    RebuiltPacked(AddValues(t, news));
  }

  /** New columns in the transaction: every edge keeps its cells and gets the defaults. */
  lemma AddShowsHere(x: Edges, news: seq<(string, N.Body)>, strict: bool)
    requires R.Paired(x.tab)
    ensures var y := Live(x, OnColumns(Add(news, strict)));
      if ComesThrough(x.cols.v, news) then Grown(x.tab, y.tab, news, InSlots(x.cols.v.cols)) else y.tab == x.tab
  {
    ComesIs(x.cols.v, news);
    GrownEither(x.tab, news);
  }

  /** The same in recovery. */
  lemma AddShowsThere(w: Kept, news: seq<(string, N.Body)>, strict: bool)
    requires R.Paired(w.tab) && Replayed(w, OnColumns(Add(news, strict))).Some?
    ensures var z := Replayed(w, OnColumns(Add(news, strict))).value;
      if ComesThrough(w.v, news) then Grown(w.tab, z.tab, news, InSlots(w.v.cols)) else z.tab == w.tab
  {
    ComesIs(w.v, news);
    GrownEither(w.tab, news);
  }

  /** Commit leaves every edge its row; it rebuilds the lists if columns go and what is left fits into the slots. */
  lemma CommitShowsRows(x: Edges, order: seq<string>)
    requires R.Paired(x.tab)
    ensures var y := Commit(x, order);
      && EachEdge(x.tab, y.tab, (a, b) => a == b)
      && if x.cols.deleted != {} && DFE.Removable(x.cols.v, order) && InSlots(y.v.cols) then Packed(y.tab)
         else y.tab == x.tab
  {
    DFE.RemovableIs(x.cols.v, order);
    RebuiltPacked(x.tab);
    SameEach(x.tab);
    RebuiltEach(x.tab, x.tab, (a, b) => a == b);
  }

  lemma SameEach(t: A.Table)
    ensures EachEdge(t, t, (a, b) => a == b)
  {
    forall u: nat ensures Each(ShownBy(DE.Slots(t.out, u)), ShownBy(DE.Slots(t.out, u)), (a, b) => a == b) { }
    forall w: nat ensures EachIn(DE.Slots(t.inc, w), DE.Slots(t.inc, w), (a, b) => a == b) {
      assert Each(ShownBy(DE.Slots(t.inc, w)), ShownBy(DE.Slots(t.inc, w)), (a, b) => a == b);
    }
  }

  /** New columns and then commit: the committed edges have the defaults. */
  lemma AddThenCommit(x: Edges, news: seq<(string, N.Body)>, strict: bool, order: seq<string>)
    requires R.Paired(x.tab) && ComesThrough(x.cols.v, news)
    ensures EachEdge(x.tab, Commit(Live(x, OnColumns(Add(news, strict))), order).tab, (a, b) => Extended(a, b, news))
  {
    var y := Live(x, OnColumns(Add(news, strict)));
    AddShowsHere(x, news, strict);
    ComesIs(x.cols.v, news);
    ValuesAddedPaired(x.tab, news);
    E.RebuildPaired(AddValues(x.tab, news));
    RebuiltEach(x.tab, y.tab, (a, b) => Extended(a, b, news));
  }

  // Deleting

  lemma HitIs(cols: seq<N.Col>, names: seq<string>, j: nat)
    ensures Hit(cols, names, j) <==> Named(cols, names, j)
  {
    if j < |cols| { CE.FindIsFirst(cols, cols[j].name, false, 0); }
  }

  lemma {:induction false} CutSize(row: seq<int>, cols: seq<N.Col>, names: seq<string>, n: nat)
    requires n <= |row|
    ensures |Cut(row[..n], cols, names)| == CellsBefore(cols, names, n)
  {
    if n > 0 {
      CutSize(row, cols, names, n - 1);
      HitIs(cols, names, n - 1);
      assert row[..n][..n - 1] == row[..n - 1];
    }
  }

  lemma {:induction false} CutAt(row: seq<int>, cols: seq<N.Col>, names: seq<string>, n: nat, j: nat)
    requires j < n <= |row| && !Named(cols, names, j)
    ensures var k, r := CellsBefore(cols, names, j), Cut(row[..n], cols, names); k < |r| && r[k] == row[j]
  {
    CutSize(row, cols, names, n - 1);
    HitIs(cols, names, n - 1);
    assert row[..n][..n - 1] == row[..n - 1];
    if j < n - 1 { CutAt(row, cols, names, n - 1, j); }
  }

  lemma CutShortens(row: seq<int>, cols: seq<N.Col>, names: seq<string>)
    ensures Shortened(row, Cut(row, cols, names), cols, names)
  {
    CutSize(row, cols, names, |row|);
    assert row[..|row|] == row;
    forall j: nat | j < |row| ensures StaysAt(row, Cut(row, cols, names), cols, names, j) {
      if !Named(cols, names, j) { CutAt(row, cols, names, |row|, j); }
    }
  }

  /** In a table y every edge of x has lost the cells of the columns that go. */
  ghost predicate Shrunk(x: A.Table, y: A.Table, cols: seq<N.Col>, names: seq<string>, rebuilt: bool) {
    && EachEdge(x, y, (a, b) => Shortened(a, b, cols, names)) && (rebuilt ==> Packed(y))
    && (!rebuilt ==> EachSlot(x.out, y.out, (a, b) => Shortened(a, b, cols, names))
                     && EachSlot(x.inc, y.inc, (a, b) => Shortened(a, b, cols, names)))
  }

  lemma ShrunkEither(t: A.Table, cols: seq<N.Col>, names: seq<string>)
    requires R.Paired(t)
    ensures var y := DeleteValues(t, cols, names);
      Shrunk(t, y, cols, names, false) && Shrunk(t, R.Rebuild(y), cols, names, true)
  {
    var f, p := d => Code(Cut(Row(d), cols, names)), (a: seq<int>, b: seq<int>) => Shortened(a, b, cols, names);
    forall d: int ensures Shortened(Row(d), Row(Code(Cut(Row(d), cols, names))), cols, names) {
      RowCode(Cut(Row(d), cols, names));
      CutShortens(Row(d), cols, names);
    }
    RevaluedEach(f, t, p);
    E.RevaluePaired(f, t);
    RebuiltEach(t, DeleteValues(t, cols, names), p);
    RebuiltPacked(DeleteValues(t, cols, names));
  }

  /** Deleting columns in the transaction: readers lose their cells, and every slot stays in its place. */
  lemma DeleteShowsHere(x: Edges, names: seq<string>)
    requires R.Paired(x.tab)
    ensures var y := Live(x, OnColumns(Delete(names)));
      if CE.Refused(x.cols.v, Delete(names)) then y.tab == x.tab
      else Shrunk(x.tab, y.tab, D.Alive(x.cols.v.cols), names, false)
  {
    CE.ColumnsDo(x.cols.v, Delete(names));
    ShrunkEither(x.tab, D.Alive(x.cols.v.cols), names);
  }

  /** In recovery the lists are rebuilt if the columns that are left fit into the slots. */
  lemma DeleteShowsThere(w: Kept, names: seq<string>)
    requires R.Paired(w.tab)
    ensures var z := Replayed(w, OnColumns(Delete(names)));
      if !DFE.Removable(w.v, names) then z == Some(w)
      else z.Some? && Shrunk(w.tab, z.value.tab, w.v.cols, names, names != [] && InSlots(z.value.v.cols))
  {
    DFE.RemovableIs(w.v, names);
    ShrunkEither(w.tab, w.v.cols, names);
  }

  /** The columns that are not deleted, in order. */
  lemma {:induction false} AliveSize(cols: seq<N.Col>, n: nat)
    requires n <= |cols|
    ensures |D.Alive(cols[..n])| == CE.LiveUpTo(cols, n)
  {
    if n > 0 {
      AliveSize(cols, n - 1);
      assert cols[..n][..n - 1] == cols[..n - 1];
    }
  }

  lemma {:induction false} AliveAt(cols: seq<N.Col>, n: nat, j: nat)
    requires j < n <= |cols| && !cols[j].dead
    ensures var k, r := CE.LiveUpTo(cols, j), D.Alive(cols[..n]); k < |r| && r[k] == cols[j]
  {
    AliveSize(cols, n - 1);
    assert cols[..n][..n - 1] == cols[..n - 1];
    if j < n - 1 { AliveAt(cols, n - 1, j); }
  }

  // ------------------------------------------------------------------------------------
  // Changes of edges
  // ------------------------------------------------------------------------------------

  /** A type without columns takes anything, one whose column is in the slots the first value, others all. */
  predicate Accepts(cols: seq<N.Col>, vals: seq<int>) {
    if |cols| == 0 then true else if InSlots(cols) then vals != [] else |vals| == |cols|
  }

  /** The row has the value of every column that is not deleted. */
  predicate RowOf(cols: seq<N.Col>, vals: seq<int>, row: seq<int>) {
    |row| == CE.LiveUpTo(cols, |cols|) && forall j: nat | j < |cols| && !cols[j].dead :: CellOf(cols, vals, row, j)
  }

  predicate CellOf(cols: seq<N.Col>, vals: seq<int>, row: seq<int>, j: nat)
    requires j < |cols|
  {
    var k := CE.LiveUpTo(cols, j); j < |vals| && k < |row| && row[k] == vals[j]
  }

  lemma {:induction false} SeenSize(row: seq<int>, cols: seq<N.Col>, n: nat)
    requires |row| == |cols| && n <= |cols|
    ensures |Seen(row[..n], cols[..n])| == CE.LiveUpTo(cols, n)
  {
    if n > 0 {
      SeenSize(row, cols, n - 1);
      assert row[..n][..n - 1] == row[..n - 1] && cols[..n][..n - 1] == cols[..n - 1];
    }
  }

  lemma {:induction false} SeenAt(row: seq<int>, cols: seq<N.Col>, n: nat, j: nat)
    requires |row| == |cols| && j < n <= |cols| && !cols[j].dead
    ensures var k, r := CE.LiveUpTo(cols, j), Seen(row[..n], cols[..n]); k < |r| && r[k] == row[j]
  {
    SeenSize(row, cols, n - 1);
    assert row[..n][..n - 1] == row[..n - 1] && cols[..n][..n - 1] == cols[..n - 1];
    if j < n - 1 { SeenAt(row, cols, n - 1, j); }
  }

  lemma SeenIsRow(cols: seq<N.Col>, vals: seq<int>)
    requires Accepts(cols, vals)
    ensures var r := Taken(cols, vals); r.Some? && RowOf(cols, vals, Seen(r.value, cols))
  {
    var row := Taken(cols, vals).value;
    SeenSize(row, cols, |cols|);
    assert row[..|cols|] == row && cols[..|cols|] == cols;
    forall j: nat | j < |cols| && !cols[j].dead ensures CellOf(cols, vals, Seen(row, cols), j) {
      SeenAt(row, cols, |cols|, j);
      assert row[j] == vals[j];
    }
  }

  /** One more slot on either side, with the row. */
  ghost predicate EdgeAdded(x: A.Table, y: A.Table, src: nat, dst: nat, row: seq<int>, ts: nat) {
    exists d: int :: Row(d) == row
      && DE.Appended(x.out, y.out, src, A.Slot(dst, d, Some(ts)))
      && DE.Appended(x.inc, y.inc, dst, A.Slot(src, d, Some(ts)))
  }

  lemma PutAdds(t: A.Table, src: nat, dst: nat, row: seq<int>, ts: nat)
    ensures EdgeAdded(t, A.PutEdge(t, src, dst, Code(row), ts), src, dst, row, ts)
  {
    RowCode(row);
    var y := A.PutEdge(t, src, dst, Code(row), ts);
    assert DE.Appended(t.out, y.out, src, A.Slot(dst, Code(row), Some(ts)));
    assert DE.Appended(t.inc, y.inc, dst, A.Slot(src, Code(row), Some(ts)));
  }

  /** Adding an edge in the transaction: refused, or one more edge with the values of the columns that are left. */
  lemma AddEdgeHere(x: Edges, src: nat, dst: nat, vals: seq<int>, ts: nat)
    ensures var y, cols := Live(x, AddEdge(src, dst, vals, ts)), x.cols.v.cols;
      && y.cols == x.cols && (!Accepts(cols, vals) ==> y.tab == x.tab)
      && (Accepts(cols, vals) ==> exists row :: RowOf(cols, vals, row) && EdgeAdded(x.tab, y.tab, src, dst, row, ts))
  {
    var cols := x.cols.v.cols;
    if Accepts(cols, vals) {
      SeenIsRow(cols, vals);
      PutAdds(x.tab, src, dst, Seen(Taken(cols, vals).value, cols), ts);
    }
  }

  /** The same in recovery, with all columns it has. */
  lemma AddEdgeThere(w: Kept, src: nat, dst: nat, vals: seq<int>, ts: nat)
    ensures var z := Replayed(w, AddEdge(src, dst, vals, ts));
      && (z.Some? <==> Accepts(w.v.cols, vals))
      && (z.Some? ==> z.value.v == w.v && |w.v.cols| <= |vals|
                      && EdgeAdded(w.tab, z.value.tab, src, dst, vals[..|w.v.cols|], ts))
  {
    if Accepts(w.v.cols, vals) {
      assert Taken(w.v.cols, vals).value == vals[..|w.v.cols|];
      PutAdds(w.tab, src, dst, vals[..|w.v.cols|], ts);
    }
  }

  /** Removing by offsets: both slots lose their stamps; out of range, recovery fails. */
  lemma RemoveEdgeBoth(x: Edges, w: Kept, e: A.Cap)
    ensures var y := Live(x, RemoveEdge(e));
      && y.cols == x.cols
      && (Both(x.tab, e) ==>
            DE.Killed(x.tab.out, y.tab.out, e.src, e.oe) && DE.Killed(x.tab.inc, y.tab.inc, e.dst, e.ie))
    ensures var z := Replayed(w, RemoveEdge(e));
      && (z.Some? <==> e.oe < |DE.Slots(w.tab.out, e.src)| && e.ie < |DE.Slots(w.tab.inc, e.dst)|)
      && (z.Some? ==> z.value.v == w.v && DE.Killed(w.tab.out, z.value.tab.out, e.src, e.oe)
                      && DE.Killed(w.tab.inc, z.value.tab.inc, e.dst, e.ie))
  {
    KillIs(x.tab.out, e.src, e.oe);
    KillIs(x.tab.inc, e.dst, e.ie);
    KillIs(w.tab.out, e.src, e.oe);
    KillIs(w.tab.inc, e.dst, e.ie);
  }

  lemma KillIs(a: A.Adj, u: nat, k: nat)
    ensures var r := A.Kill(a, u, k);
      (r.Some? <==> k < |DE.Slots(a, u)|) && (r.Some? ==> DE.Killed(a, r.value, u, k))
  {
  }

  // Setting a cell

  predicate CellSet(a: seq<int>, b: seq<int>, k: nat, value: int) {
    |b| == |a| && forall j | 0 <= j < |a| :: b[j] == if j == k then value else a[j]
  }

  /** Slot i of u's list has the value in cell k, every other slot is as it was. */
  ghost predicate RowSet(a: A.Adj, b: A.Adj, u: nat, i: nat, k: nat, value: int) {
    && DE.OtherLists(a, b, u) && i < |DE.Slots(a, u)| && |DE.Slots(b, u)| == |DE.Slots(a, u)|
    && (forall j | 0 <= j < |DE.Slots(a, u)| && j != i :: DE.Slots(b, u)[j] == DE.Slots(a, u)[j])
    && SlotChanged(DE.Slots(a, u)[i], DE.Slots(b, u)[i], (p, q) => CellSet(p, q, k, value))
  }

  ghost predicate RankSet(a: A.Adj, b: A.Adj, u: nat, r: nat, k: nat, value: int) {
    exists i: nat :: DE.Ranks(DE.Slots(a, u), r, i) && RowSet(a, b, u, i, k, value)
  }

  lemma EditSets(a: A.Adj, u: nat, i: nat, k: nat, value: int)
    requires i < |A.List(a, u)|
    ensures RowSet(a, E.Edit(a, u, i, Valued(A.List(a, u)[i], k, value)), u, i, k, value)
  {
    RowCode(PutAt(Row(A.List(a, u)[i].data), k, value));
  }

  lemma NthSets(a: A.Adj, u: nat, r: nat, k: nat, value: int)
    requires A.Nth(A.List(a, u), r, 0).Some?
    ensures var i := A.Nth(A.List(a, u), r, 0).value;
      RankSet(a, E.Edit(a, u, i, Valued(A.List(a, u)[i], k, value)), u, r, k, value)
  {
    var i := A.Nth(A.List(a, u), r, 0).value;
    DE.NthRanks(A.List(a, u), r, 0, r);
    EditSets(a, u, i, k, value);
    assert DE.Ranks(DE.Slots(a, u), r, i);
  }

  lemma SetBothSets(t: A.Table, src: nat, dst: nat, oe: nat, ie: nat, k: nat, value: int)
    ensures var r := SetBoth(t, src, dst, oe, ie, k, value);
      && (r.Some? <==> (exists i: nat :: DE.Ranks(DE.Slots(t.out, src), oe, i))
                       && exists i: nat :: DE.Ranks(DE.Slots(t.inc, dst), ie, i))
      && (r.Some? ==> RankSet(t.out, r.value.out, src, oe, k, value) && RankSet(t.inc, r.value.inc, dst, ie, k, value))
  {
    DE.NthRanks(A.List(t.out, src), oe, 0, oe);
    DE.NthRanks(A.List(t.inc, dst), ie, 0, ie);
    if SetBoth(t, src, dst, oe, ie, k, value).Some? {
      NthSets(t.out, src, oe, k, value);
      NthSets(t.inc, dst, ie, k, value);
    }
  }

  /** A property change in the transaction: the column's cell on both sides of the edge. */
  lemma SetEdgeHere(x: Edges, src: nat, dst: nat, oe: nat, ie: nat, col: nat, value: int)
    requires Proper(x, SetEdge(src, dst, oe, ie, col, value))
    ensures var y, cols := Live(x, SetEdge(src, dst, oe, ie, col, value)), x.cols.v.cols;
      && y.cols == x.cols && (col >= |cols| || cols[col].dead ==> y.tab == x.tab)
      && (col < |cols| && !cols[col].dead ==>
            && RankSet(x.tab.out, y.tab.out, src, oe, CE.LiveUpTo(cols, col), value)
            && RankSet(x.tab.inc, y.tab.inc, dst, ie, CE.LiveUpTo(cols, col), value))
  {
    if Settable(x, col) {
      AliveSize(x.cols.v.cols, col);
      SetBothSets(x.tab, src, dst, oe, ie, Place(x, col), value);
    }
  }

  /** The first visible slot that names u with that number. */
  predicate PartnerAt(l: seq<A.Slot>, u: nat, d: int, i: nat) {
    && i < |l| && l[i].stamp.Some? && l[i].nbr == u && l[i].data == d
    && forall j | 0 <= j < i :: l[j].stamp.None? || l[j].nbr != u || l[j].data != d
  }

  lemma {:induction false} FirstLikeIs(l: seq<A.Slot>, u: nat, d: int, k: nat)
    requires k <= |l| && forall j | 0 <= j < k :: l[j].stamp.None? || l[j].nbr != u || l[j].data != d
    ensures var r := E.FirstLike(l, u, d, k); r.Some? ==> PartnerAt(l, u, d, r.value)
    decreases |l| - k
  {
    if k < |l| && !(A.Live(l[k]) && l[k].nbr == u && l[k].data == d) { FirstLikeIs(l, u, d, k + 1); }
  }

  /** In the row that both sides share: the cell of the outgoing slot, and of its other side. */
  ghost predicate SharedSet(x: A.Table, y: A.Table, src: nat, oe: nat, k: nat, value: int, i: nat) {
    && DE.Ranks(DE.Slots(x.out, src), oe, i) && RowSet(x.out, y.out, src, i, k, value)
    && var s := DE.Slots(x.out, src)[i];
      || ((forall j: nat :: !PartnerAt(DE.Slots(x.inc, s.nbr), src, s.data, j)) && y.inc == x.inc)
      || exists j: nat :: PartnerAt(DE.Slots(x.inc, s.nbr), src, s.data, j) && RowSet(x.inc, y.inc, s.nbr, j, k, value)
  }

  lemma SetRowSets(t: A.Table, src: nat, oe: nat, k: nat, value: int)
    ensures var r := SetRow(t, src, oe, k, value);
      && (r.Some? <==> exists i: nat :: DE.Ranks(DE.Slots(t.out, src), oe, i))
      && (r.Some? ==> exists i: nat :: SharedSet(t, r.value, src, oe, k, value, i))
  {
    DE.NthRanks(A.List(t.out, src), oe, 0, oe);
    var n := A.Nth(A.List(t.out, src), oe, 0);
    if n.Some? {
      var s := A.List(t.out, src)[n.value];
      EditSets(t.out, src, n.value, k, value);
      FirstLikeIs(A.List(t.inc, s.nbr), src, s.data, 0);
      var f := E.FirstLike(A.List(t.inc, s.nbr), src, s.data, 0);
      if f.Some? {
        EditSets(t.inc, s.nbr, f.value, k, value);
        assert PartnerAt(DE.Slots(t.inc, s.nbr), src, s.data, f.value);
      }
      assert SharedSet(t, SetRow(t, src, oe, k, value).value, src, oe, k, value, n.value);
    }
  }

  /** In recovery: the one cell of both slots, or the cell with that id in the row of the outgoing one. */
  lemma SetEdgeThere(w: Kept, src: nat, dst: nat, oe: nat, ie: nat, col: nat, value: int)
    ensures var z := Replayed(w, SetEdge(src, dst, oe, ie, col, value));
      && (z.Some? ==> z.value.v == w.v)
      && (InSlots(w.v.cols) ==>
            && (z.Some? <==> (exists i: nat :: DE.Ranks(DE.Slots(w.tab.out, src), oe, i))
                             && exists i: nat :: DE.Ranks(DE.Slots(w.tab.inc, dst), ie, i))
            && (z.Some? ==> RankSet(w.tab.out, z.value.tab.out, src, oe, 0, value)
                            && RankSet(w.tab.inc, z.value.tab.inc, dst, ie, 0, value)))
      && (!InSlots(w.v.cols) ==>
            && (z.Some? <==> col < |w.v.cols| && exists i: nat :: DE.Ranks(DE.Slots(w.tab.out, src), oe, i))
            && (z.Some? ==> exists i: nat :: SharedSet(w.tab, z.value.tab, src, oe, col, value, i)))
  {
    if InSlots(w.v.cols) {
      SetBothSets(w.tab, src, dst, oe, ie, 0, value);
    } else {
      SetRowSets(w.tab, src, oe, col, value);
    }
  }
}
