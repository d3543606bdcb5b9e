/**
 * Transactions that delete a column of an edge type and are not repeated by recovery: a removal by
 * an offset that the rebuilt list does not have, values for columns that are gone, and edges that
 * end in another order.
 */
module StaleOffsets {
  import opened Wrappers
  import opened Columns
  import opened EdgeColumns
  import opened EdgeDeferral
  import A = Adjacency
  import B = Database
  import D = Deferral
  import E = EdgeRecords
  import N = Renames
  import R = Rebuild
  import X = DeferralExact
  import Rows

  lemma Deletes(v: VType, a: string)
    requires Valid(v) && D.AllLive(v.cols) && v.pk == None && a in v.ids
    ensures Do(v, Delete([a])) == Some(Step(v.(cols := SetDead(v.cols, [a], true)), UnDelete([a])))
    ensures TryDrop(v, [a]) == Some(DropAll(v, [a]))
  {
    FindIs(v.cols, v.ids, a);
    assert Has(v, [a][0]) && HasInternal(v, [a][0]);
  }

  lemma DeletedColumns(v: VType, a: string)
    requires Valid(v) && D.AllLive(v.cols) && v.pk == None && a in v.ids
    ensures LiveColumns(D.Deferred(v, {}), Delete([a])) == D.Deferred(v.(cols := SetDead(v.cols, [a], true)), {a})
    ensures ColumnsReplayed(D.Deferred(v, {}), v, Delete([a])) == Some(DropAll(v, [a]))
  {
    Deletes(v, a);
    assert Elems([a]) == {a} && {} + {a} == {a};
  }

  lemma DeletedLists(w: Kept, names: seq<string>)
    requires Do(w.v, Delete(names)).Some? && TryDrop(w.v, names) == Some(DropAll(w.v, names)) && names != []
    requires D.Alive(w.v.cols) == w.v.cols
    ensures var t := DeleteValues(w.tab, w.v.cols, names);
      && LiveTable(Begin(w), Delete(names)) == t
      && ReplayTable(w, Delete(names)) == if B.Bundled(DropAll(w.v, names)) then R.Rebuild(t) else t
  {
  }

  lemma ColumnsIs(x: Edges, w: Kept, op: Op)
    requires LogsColumns(x.cols, op) && ColumnsReplayed(x.cols, w.v, op).Some?
    ensures Live(x, OnColumns(op)) == Edges(LiveColumns(x.cols, op), LiveTable(x, op))
    ensures ReplayOf(x, w, OnColumns(op)) == Some(Kept(ColumnsReplayed(x.cols, w.v, op).value, ReplayTable(w, op)))
  {
  }

  /** One column deleted: marked here, gone in recovery, which rebuilds if what is left fits into the slots. */
  lemma DeletedIs(w: Kept, a: string)
    requires Settled(w) && w.v.pk == None && a in w.v.ids
    ensures var c := OnColumns(Delete([a]));
      var t := DeleteValues(w.tab, w.v.cols, [a]);
      && Live(Begin(w), c) == Edges(D.Deferred(w.v.(cols := SetDead(w.v.cols, [a], true)), {a}), t)
      && ReplayOf(Begin(w), w, c)
         == Some(Kept(DropAll(w.v, [a]), if B.Bundled(DropAll(w.v, [a])) then R.Rebuild(t) else t))
  {
    Deletes(w.v, a);
    DeletedColumns(w.v, a);
    AliveAll(w.v.cols);
    DeletedLists(w, [a]);
    ColumnsIs(Begin(w), w, Delete([a]));
  }

  lemma DeletedTracks(w: Kept, a: string)
    requires Settled(w) && w.v.pk == None && a in w.v.ids
    ensures var c := OnColumns(Delete([a]));
      var r := ReplayOf(Begin(w), w, c);
      r.Some? && Tracks(Live(Begin(w), c), r.value)
  {
    BeginTracks(w);
    StepKeeps(Begin(w), w, OnColumns(Delete([a])));
  }

  lemma TwoSteps(x: Edges, w: Kept, c: Change, d: Change)
    ensures LiveAfter(x, [c, d], 1) == Live(x, c) && LiveAfter(x, [c, d], 2) == Live(Live(x, c), d)
    ensures var r := ReplayOf(x, w, c);
      ReplayAfter(x, w, [c, d], 2) == if r.None? then None else ReplayOf(Live(x, c), r.value, d)
  {
    var cs := [c, d];
    assert LiveAfter(x, cs, 0) == x && ReplayAfter(x, w, cs, 0) == Some(w);
    assert LiveAfter(x, cs, 1) == Live(x, c) && ReplayAfter(x, w, cs, 1) == ReplayOf(x, w, c);
  }

  /** A rebuilt list has no place for the last slot of one with a deleted slot. */
  lemma ListShrinks(t: A.Table, cols: seq<N.Col>, names: seq<string>, e: A.Cap, j: nat)
    requires e.oe + 1 == |A.List(t.out, e.src)| && j < e.oe && !A.Live(A.List(t.out, e.src)[j])
    ensures A.DeleteEdge(R.Rebuild(DeleteValues(t, cols, names)), e).None?
  {
    var d := DeleteValues(t, cols, names);
    R.RebuildOut(d, e.src);
    R.SqueezeSize(A.List(d.out, e.src));
    assert !A.Live(A.List(d.out, e.src)[j]);
  }

  lemma DropOnly(v: VType)
    requires Valid(v) && |v.cols| == 1
    ensures v.cols[0].name in v.ids && DropAll(v, [v.cols[0].name]).cols == []
  {
    var a := v.cols[0].name;
    FindIs(v.cols, v.ids, a);
    assert [a][..0] == [];
  }

  /**
   * The only property is deleted, then the last slot of a list with a deleted slot in front is
   * removed: the rebuilt list is shorter, and recovery throws.
   */
  lemma StaleOffset(w: Kept, e: A.Cap, j: nat)
    requires Settled(w) && w.v.pk == None && |w.v.cols| == 1
    requires e.oe + 1 == |A.List(w.tab.out, e.src)| && j < e.oe && !A.Live(A.List(w.tab.out, e.src)[j])
    ensures var cs := [OnColumns(Delete([w.v.cols[0].name])), RemoveEdge(e)];
      ReplayAfter(Begin(w), w, cs, 2).None? && !AgreeAt(Begin(w), w, cs, 2)
  {
    var a := w.v.cols[0].name;
    DropOnly(w.v);
    DeletedIs(w, a);
    TwoSteps(Begin(w), w, OnColumns(Delete([a])), RemoveEdge(e));
    ListShrinks(w.tab, w.v.cols, [a], e, j);
  }

  /** With three columns or more, a deletion and then a new edge: whatever the values, here or there it throws. */
  lemma AddAfterDelete(w: Kept, a: string, src: nat, dst: nat, vals: seq<int>, ts: nat)
    requires Settled(w) && w.v.pk == None && a in w.v.ids && |w.v.cols| >= 3
    ensures !AgreeAt(Begin(w), w, [OnColumns(Delete([a])), AddEdge(src, dst, vals, ts)], 2)
  {
    var c, d := OnColumns(Delete([a])), AddEdge(src, dst, vals, ts);
    DeletedIs(w, a);
    DeletedTracks(w, a);
    var x, r := Live(Begin(w), c), ReplayOf(Begin(w), w, c).value;
    DropOneSize(w.v, a);
    TracksCols(x, r);
    DoesNotFit(x, vals);
    SecondBreaks(w, c, d, x, r);
  }

  /** Both before and after the deleted column goes, the type takes as many values as it has columns. */
  lemma DoesNotFit(x: Edges, vals: seq<int>)
    requires |D.Alive(x.cols.v.cols)| >= 2 && |D.Alive(x.cols.v.cols)| < |x.cols.v.cols|
    ensures !AddOk(x, vals)
  {
  }

  lemma SecondBreaks(w: Kept, c: Change, d: Change, x: Edges, r: Kept)
    requires x == Live(Begin(w), c) && ReplayOf(Begin(w), w, c) == Some(r)
    requires Tracks(x, r) && Proper(x, d) && !StepOk(x, r, d)
    ensures !AgreeAt(Begin(w), w, [c, d], 2)
  {
    TwoSteps(Begin(w), w, c, d);
    StepExact(x, r, d);
  }

  lemma DropOneSize(v: VType, a: string)
    requires Valid(v) && a in v.ids
    ensures |DropAll(v, [a]).cols| == |v.cols| - 1 && |SetDead(v.cols, [a], true)| == |v.cols|
  {
    FindIs(v.cols, v.ids, a);
    assert [a][..0] == [];
    assert DropAll(v, [a]) == DropOne(v, a);
  }

  // ------------------------------------------------------------------------------------
  // Another order
  // ------------------------------------------------------------------------------------

  function OneColumn(p: string): (w: Kept) {
    Kept(VType(None, [N.Col(p, N.Body(false, 0), false)], map[p := 0], 1), A.Table(map[], map[]))
  }

  function Later(p: string, a: int, b: int, ts: nat): (cs: seq<Change>) {
    [OnColumns(Delete([p])), AddEdge(1, 0, [a], ts), AddEdge(0, 0, [b], ts)]
  }

  /** The lists of two edges into vertex 0, the one from vertex 1 first. */
  function TwoInto(d: int, ts: nat): (t: A.Table) {
    var s := A.Slot(0, d, Some(ts));
    A.Table(map[1 := [s], 0 := [s]], map[0 := [A.Slot(1, d, Some(ts)), s]])
  }

  lemma TwoPut(t: A.Table, d: int, ts: nat)
    requires t.out == map[] && t.inc == map[]
    ensures A.PutEdge(A.PutEdge(t, 1, 0, d, ts), 0, 0, d, ts) == TwoInto(d, ts)
  {
    var s, r := A.Slot(0, d, Some(ts)), A.Slot(1, d, Some(ts));
    var t' := A.PutEdge(t, 1, 0, d, ts);
    assert [] + [s] == [s] && [] + [r] == [r] && [r] + [s] == [r, s];
    assert t' == A.Table(map[1 := [s]], map[0 := [r]]);
    assert t'.out[0 := [s]] == map[1 := [s], 0 := [s]] && t'.inc[0 := [r, s]] == map[0 := [r, s]];
  }

  /** A rebuild puts the edge from vertex 0 first. */
  lemma TwoRebuilt(d: int, ts: nat)
    ensures A.List(R.Rebuild(TwoInto(d, ts)).inc, 0) == [A.Slot(0, d, Some(0)), A.Slot(1, d, Some(0))]
  {
    var t := TwoInto(d, ts);
    var s := A.Slot(0, d, Some(ts));
    assert 1 in t.out && forall u | u in t.out :: u <= 1;
    R.RebuildInc(t, 0);
    assert R.InFrom([s], 0, 0) == [A.Slot(0, d, Some(0))] by { assert [s] == [] + [s]; R.InFromLast([], s, 0, 0); }
    assert R.InFrom([s], 0, 1) == [A.Slot(1, d, Some(0))] by { assert [s] == [] + [s]; R.InFromLast([], s, 0, 1); }
    assert R.Exported(t.out, 0, 0) == [];
    assert R.Exported(t.out, 0, 1) == [A.Slot(0, d, Some(0))];
    assert R.Exported(t.out, 0, 2) == [A.Slot(0, d, Some(0)), A.Slot(1, d, Some(0))];
    assert R.Bound(t.out) == 2;
  }

  lemma NothingToDo(p: string)
    ensures var w := OneColumn(p); var t := DeleteValues(w.tab, w.v.cols, [p]);
      Settled(w) && t == w.tab && R.Rebuild(t) == w.tab && DropAll(w.v, [p]).cols == []
  {
    var w := OneColumn(p);
    var t := DeleteValues(w.tab, w.v.cols, [p]);
    assert t.out == map[] && t.inc == map[];
    assert R.Rebuild(t).out == map[] && R.Rebuild(t).inc == map[];
    forall u: nat, z: nat, d: int ensures R.Seen(A.List(w.tab.out, u), z, d) == R.Seen(A.List(w.tab.inc, z), u, d) { }
    FindIs(w.v.cols, w.v.ids, p);
    assert [p][..0] == [];
  }

  /** After the deletion both edges are added with no values left. */
  lemma AddsIs(x: Edges, w: Kept, src: nat, a: int, ts: nat)
    requires |x.cols.v.cols| == 1 && x.cols.v.cols[0].dead && !x.cols.v.cols[0].body.varchar && w.v.cols == []
    ensures Live(x, AddEdge(src, 0, [a], ts)) == x.(tab := A.PutEdge(x.tab, src, 0, Rows.Code([]), ts))
    ensures Replayed(w, AddEdge(src, 0, [a], ts)) == Some(w.(tab := A.PutEdge(w.tab, src, 0, Rows.Code([]), ts)))
  {
    assert Seen([a], x.cols.v.cols) == [] by { assert Seen([a][..0], x.cols.v.cols[..0]) == []; }
  }

  lemma CommitsEmpty(x: Edges, p: string)
    requires x.cols == D.Deferred(VType(None, [N.Col(p, N.Body(false, 0), true)], map[p := 0], 1), {p})
    ensures D.Listing([p], {p}) && Commit(x, [p]).tab == R.Rebuild(x.tab)
  {
    var v := x.cols.v;
    FindIs(v.cols, v.ids, p);
    assert [p][..0] == [] && HasInternal(v, [p][0]);
    assert DropAll(v, [p]).cols == [];
    assert Elems([p]) == {p};
  }

  lemma ThreeSteps(x: Edges, w: Kept, cs: seq<Change>, y: Edges, z: Kept, y': Edges, z': Kept)
    requires |cs| == 3 && Live(x, cs[0]) == y && ReplayOf(x, w, cs[0]) == Some(z)
    requires Live(y, cs[1]) == y' && ReplayOf(y, z, cs[1]) == Some(z')
    ensures LiveAfter(x, cs, 3) == Live(y', cs[2]) && ReplayAfter(x, w, cs, 3) == ReplayOf(y', z', cs[2])
  {
    assert LiveAfter(x, cs, 0) == x && ReplayAfter(x, w, cs, 0) == Some(w);
    assert LiveAfter(x, cs, 1) == y && ReplayAfter(x, w, cs, 1) == Some(z);
    assert LiveAfter(x, cs, 2) == y' && ReplayAfter(x, w, cs, 2) == Some(z');
  }

  /**
   * The only property is deleted, then two edges are added into one vertex: commit and recovery show
   * the same, but offset 0 of the incoming list is another edge in each.
   */
  lemma OtherOrder(p: string, a: int, b: int, ts: nat)
    ensures var w := OneColumn(p); var x, r := LiveAfter(Begin(w), Later(p, a, b, ts), 3),
        ReplayAfter(Begin(w), w, Later(p, a, b, ts), 3);
      && r.Some? && D.Listing([p], x.cols.deleted)
      && |A.List(Commit(x, [p]).tab.inc, 0)| == 2 && A.List(Commit(x, [p]).tab.inc, 0)[0].nbr == 0
      && |A.List(r.value.tab.inc, 0)| == 2 && A.List(r.value.tab.inc, 0)[0].nbr == 1
  {
    var w, cs, d := OneColumn(p), Later(p, a, b, ts), Rows.Code([]);
    NothingToDo(p);
    DeletedIs(w, p);
    var y, z := Live(Begin(w), cs[0]), ReplayOf(Begin(w), w, cs[0]).value;
    FindIs(w.v.cols, w.v.ids, p);
    assert [p][..0] == [];
    AddsIs(y, z, 1, a, ts);
    var y', z' := Live(y, cs[1]), ReplayOf(y, z, cs[1]).value;
    AddsIs(y', z', 0, b, ts);
    ThreeSteps(Begin(w), w, cs, y, z, y', z');
    TwoPut(w.tab, d, ts);
    TwoRebuilt(d, ts);
    assert y.cols.v.cols == [N.Col(p, N.Body(false, 0), true)];
    CommitsEmpty(Live(y', cs[2]), p);
  }
}
