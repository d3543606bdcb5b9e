/**
 * The loops around a vertex removal: collecting the edges at a vertex over all triplets, and
 * removing the vertex from the tables.
 */
module Capture {
  import opened Wrappers
  import opened Undo
  import A = Adjacency

  /** Capture of one view; the search runs in the opposite list. */
  method FetchFromView(tab: A.Table, lid: nat, isSrc: bool) returns (caps: seq<Option<A.Cap>>)
    ensures caps == if isSrc then A.CaptureOut(tab, lid, 0) else A.CaptureIn(tab, lid)
  {
    caps := [];
    var view := if isSrc then tab else A.Flip(tab);
    var nbrs := A.List(view.out, lid);
    ghost var found: seq<Option<A.Cap>> := [];
    var k := 0;
    while k < |nbrs|
      invariant 0 <= k <= |nbrs|
      invariant found + A.CaptureOut(view, lid, k) == A.CaptureOut(view, lid, 0)
      invariant caps == if isSrc then found else A.FlipCaps(found)
    {
      if A.Live(nbrs[k]) {
        var m := A.Search(A.List(view.inc, nbrs[k].nbr), nbrs[k].(nbr := lid));
        var cap := if m.Some? then Some(A.Cap(lid, nbrs[k].nbr, k, m.value)) else None;
        FlipAppend(found, cap);
        Assoc(found, [cap], A.CaptureOut(view, lid, k + 1));
        caps := caps + [if isSrc then cap else A.FlipCap(cap)];
        found := found + [cap];
      }
      k := k + 1;
    }
    assert found + [] == found;
  }

  lemma {:induction false} FlipAppend(caps: seq<Option<A.Cap>>, c: Option<A.Cap>)
    ensures A.FlipCaps(caps + [c]) == A.FlipCaps(caps) + [A.FlipCap(c)]
  {
    if caps != [] {
      assert (caps + [c])[1..] == caps[1..] + [c];
      FlipAppend(caps[1..], c);
    } else {
      assert caps + [c] == [c];
    }
  }

  /** The label at the other end of a triplet that touches l. */
  function Other(t: Triplet, l: nat): (o: nat) { if t.src == l then t.dst else t.src }

  predicate Visited(t: Triplet, l: nat, o: nat, e: nat) {
    Other(t, l) < o || (Other(t, l) == o && t.elabel < e)
  }

  predicate Touches(t: Triplet, l: nat) { t.src == l || t.dst == l }

  ghost predicate InSchema(tables: Tables, vlabels: nat, elabels: nat) {
    forall t | t in tables :: t.src < vlabels && t.dst < vlabels && t.elabel < elabels
  }

  /** The record after the triplets visited so far. */
  ghost predicate FetchedSoFar(k: Kinds, tables: Tables, l: nat, lid: nat, o: nat, e: nat, caps: Captures) {
    && (forall t :: t in caps <==> t in tables && Recordable(k, t, l) && Visited(t, l, o, e))
    && (forall t | t in caps :: caps[t] == Capture(k, tables, l, lid)[t])
  }

  lemma VisitedNext(t: Triplet, l: nat, o: nat, e: nat)
    requires Touches(t, l)
    ensures Visited(t, l, o, e + 1) <==> Visited(t, l, o, e) || t == Triplet(l, o, e) || t == Triplet(o, l, e)
  {
  }

  /** The two triplets between l and one other label, for one edge label. */
  method FetchPair(k: Kinds, tables: Tables, l: nat, lid: nat, o: nat, e: nat, caps: Captures) returns (caps': Captures)
    requires l in k.valid && o in k.valid && FetchedSoFar(k, tables, l, lid, o, e, caps)
    ensures FetchedSoFar(k, tables, l, lid, o, e + 1, caps')
  {
    caps' := caps;
    if Triplet(l, o, e) in tables && Triplet(l, o, e) !in k.soft {
      var c := FetchFromView(tables[Triplet(l, o, e)], lid, true);
      caps' := caps'[Triplet(l, o, e) := c];
    }
    if o != l && Triplet(o, l, e) in tables && Triplet(o, l, e) !in k.soft {
      var c := FetchFromView(tables[Triplet(o, l, e)], lid, false);
      caps' := caps'[Triplet(o, l, e) := c];
    }
    PairFetched(k, tables, l, lid, o, e, caps, caps');
  }

  lemma PairFetched(k: Kinds, tables: Tables, l: nat, lid: nat, o: nat, e: nat, caps: Captures, caps': Captures)
    requires FetchedSoFar(k, tables, l, lid, o, e, caps)
    requires forall t | t != Triplet(l, o, e) && t != Triplet(o, l, e) ::
      (t in caps' <==> t in caps) && (t in caps ==> caps'[t] == caps[t])
    requires forall t | t == Triplet(l, o, e) || t == Triplet(o, l, e) ::
      && (t in caps' <==> t in Capture(k, tables, l, lid))
      && (t in caps' ==> caps'[t] == Capture(k, tables, l, lid)[t])
    ensures FetchedSoFar(k, tables, l, lid, o, e + 1, caps')
  {
    forall t | Touches(t, l)
      ensures Visited(t, l, o, e + 1) <==> Visited(t, l, o, e) || t == Triplet(l, o, e) || t == Triplet(o, l, e)
    {
      VisitedNext(t, l, o, e);
    }
  }

  /** The edges at a vertex, triplet by triplet. */
  method FetchEdges(k: Kinds, tables: Tables, vlabels: nat, elabels: nat, l: nat, lid: nat) returns (caps: Captures)
    requires InSchema(tables, vlabels, elabels) && l in k.valid
    ensures caps == Capture(k, tables, l, lid)
  {
    caps := map[];
    for o := 0 to vlabels
      invariant FetchedSoFar(k, tables, l, lid, o, 0, caps)
    {
      if o in k.valid {
        for e := 0 to elabels
          invariant FetchedSoFar(k, tables, l, lid, o, e, caps)
        {
          caps := FetchPair(k, tables, l, lid, o, e, caps);
        }
      }
      assert forall t | t in tables :: Visited(t, l, o + 1, 0) <==> Visited(t, l, o, elabels);
    }
    assert caps.Keys == Capture(k, tables, l, lid).Keys;
  }

  // ------------------------------------------------------------------------------------
  // What was captured
  // ------------------------------------------------------------------------------------

  /**
   * One entry per visible outgoing slot from offset k on, in order, each with a slot on the
   * other side that looks like it.
   */
  ghost predicate Lists(t: A.Table, v: nat, k: nat, caps: seq<Option<A.Cap>>) {
    && (forall i | 0 <= i < |caps| :: Entry(t, v, k, caps[i]))
    && Ascending(caps)
    && (forall n: nat | k <= n < |A.List(t.out, v)| && A.Live(A.List(t.out, v)[n]) :: Names(caps, n))
  }

  predicate Entry(t: A.Table, v: nat, k: nat, c: Option<A.Cap>) {
    c.Some? && c.value.src == v && k <= c.value.oe && A.Mates(t, v, c.value.oe, c.value.dst, c.value.ie)
  }

  predicate Ascending(caps: seq<Option<A.Cap>>) {
    forall i, j | 0 <= i < j < |caps| :: caps[i].Some? && caps[j].Some? ==> caps[i].value.oe < caps[j].value.oe
  }

  predicate Names(caps: seq<Option<A.Cap>>, n: nat) {
    exists i :: 0 <= i < |caps| && caps[i].Some? && caps[i].value.oe == n
  }

  lemma NamesMore(c: Option<A.Cap>, rest: seq<Option<A.Cap>>, n: nat)
    requires Names(rest, n) || (c.Some? && c.value.oe == n)
    ensures Names([c] + rest, n)
  {
    var caps := [c] + rest;
    if c.Some? && c.value.oe == n {
      assert caps[0] == c;
    } else {
      var i :| 0 <= i < |rest| && rest[i].Some? && rest[i].value.oe == n;
      assert caps[i + 1] == rest[i];
    }
  }

  lemma EntriesMore(t: A.Table, v: nat, k: nat, c: Option<A.Cap>, rest: seq<Option<A.Cap>>)
    requires Entry(t, v, k, c) && c.value.oe == k && Ascending(rest)
    requires forall i | 0 <= i < |rest| :: Entry(t, v, k + 1, rest[i])
    ensures Ascending([c] + rest) && forall i | 0 <= i < |[c] + rest| :: Entry(t, v, k, ([c] + rest)[i])
  {
    var caps := [c] + rest;
    forall i | 0 < i < |caps| ensures Entry(t, v, k, caps[i]) && k < caps[i].value.oe {
      assert Entry(t, v, k + 1, rest[i - 1]);
    }
    forall i, j | 0 < i < j < |caps| ensures caps[i].value.oe < caps[j].value.oe {
      assert caps[i] == rest[i - 1] && caps[j] == rest[j - 1];
    }
  }

  lemma ListsOne(t: A.Table, v: nat, k: nat, m: nat, rest: seq<Option<A.Cap>>)
    requires k < |A.List(t.out, v)| && A.Mates(t, v, k, A.List(t.out, v)[k].nbr, m) && Lists(t, v, k + 1, rest)
    ensures Lists(t, v, k, [Some(A.Cap(v, A.List(t.out, v)[k].nbr, k, m))] + rest)
  {
    var c := Some(A.Cap(v, A.List(t.out, v)[k].nbr, k, m));
    EntriesMore(t, v, k, c, rest);
    forall n: nat | k <= n < |A.List(t.out, v)| && A.Live(A.List(t.out, v)[n]) ensures Names([c] + rest, n) {
      NamesMore(c, rest, n);
    }
  }

  lemma ListsSkip(t: A.Table, v: nat, k: nat, rest: seq<Option<A.Cap>>)
    requires k < |A.List(t.out, v)| && !A.Live(A.List(t.out, v)[k]) && Lists(t, v, k + 1, rest)
    ensures Lists(t, v, k, rest)
  {
    forall i | 0 <= i < |rest| ensures Entry(t, v, k, rest[i]) { assert Entry(t, v, k + 1, rest[i]); }
  }

  /** The edges recorded of v are all its visible outgoing edges, each once. */
  lemma {:induction false} CaptureOutLists(t: A.Table, v: nat, k: nat)
    requires A.TableOk(t)
    ensures Lists(t, v, k, A.CaptureOut(t, v, k))
    decreases |A.List(t.out, v)| - k
  {
    if k < |A.List(t.out, v)| {
      CaptureOutLists(t, v, k + 1);
      if A.Live(A.List(t.out, v)[k]) {
        var m := A.CapturedMate(t, v, k);
        ListsOne(t, v, k, m, A.CaptureOut(t, v, k + 1));
      } else {
        ListsSkip(t, v, k, A.CaptureOut(t, v, k + 1));
      }
    }
  }

  /** No two records of v share a slot on the other side. */
  ghost predicate OwnSlots(caps: seq<Option<A.Cap>>) {
    forall i, j | 0 <= i < j < |caps| && caps[i].Some? && caps[j].Some? ::
      !(caps[i].value.dst == caps[j].value.dst && caps[i].value.ie == caps[j].value.ie)
  }

  /** Each edge is recorded with a slot of its own exactly if no two of them look the same. */
  lemma OwnSlotsExact(t: A.Table, v: nat)
    requires A.TableOk(t)
    ensures OwnSlots(A.CaptureOut(t, v, 0)) <==> A.NoTwins(t, v)
  {
    var caps := A.CaptureOut(t, v, 0);
    CaptureOutLists(t, v, 0);
    if A.NoTwins(t, v) {
      forall i, j | 0 <= i < j < |caps| && caps[i].Some? && caps[j].Some?
        ensures !(caps[i].value.dst == caps[j].value.dst && caps[i].value.ie == caps[j].value.ie)
      {
        assert Entry(t, v, 0, caps[i]) && Entry(t, v, 0, caps[j]);
      }
    } else {
      var l := A.List(t.out, v);
      var a: nat, b: nat :| a < b < |l| && A.Live(l[a]) && A.Live(l[b]) && l[a] == l[b];
      var i := A.CaptureHas(t, v, 0, a);
      var j := A.CaptureHas(t, v, 0, b);
      assert i != j;
    }
  }

  /** All visible outgoing edges, and from other labels all visible incoming ones, each once under its triplet. */
  lemma CaptureComplete(k: Kinds, tables: Tables, l: nat, lid: nat, t: Triplet)
    requires EdgesOk(tables)
    ensures t in Capture(k, tables, l, lid) <==> t in tables && Recordable(k, t, l)
    ensures t in Capture(k, tables, l, lid) && t.src == l ==> Lists(tables[t], lid, 0, Capture(k, tables, l, lid)[t])
    ensures t in Capture(k, tables, l, lid) && t.src != l ==>
              exists caps :: Capture(k, tables, l, lid)[t] == A.FlipCaps(caps) && Lists(A.Flip(tables[t]), lid, 0, caps)
  {
    if t in tables {
      CaptureOutLists(tables[t], lid, 0);
      A.FlipOk(tables[t]);
      CaptureOutLists(A.Flip(tables[t]), lid, 0);
    }
  }

  // ------------------------------------------------------------------------------------
  // Removing the vertex
  // ------------------------------------------------------------------------------------

  /** The tables after the triplets visited so far. */
  ghost predicate DroppedSoFar(k: Kinds, tables: Tables, l: nat, lid: nat, o: nat, e: nat, cur: Tables) {
    && cur.Keys == tables.Keys
    && forall t | t in tables ::
         if Touches(t, l) && Visited(t, l, o, e) then DropTable(k, t, tables[t], l, lid) == Some(cur[t])
         else cur[t] == tables[t]
  }

  /** The two triplets between l and one other label; for l itself both calls hit the same table. */
  method DropPair(k: Kinds, tables: Tables, l: nat, lid: nat, o: nat, e: nat, cur: Tables) returns (r: Option<Tables>)
    requires l in k.valid && o in k.valid && DroppedSoFar(k, tables, l, lid, o, e, cur)
    ensures r.Some? ==> DroppedSoFar(k, tables, l, lid, o, e + 1, r.value)
    ensures r.None? ==> exists t | t in tables :: DropTable(k, t, tables[t], l, lid).None?
  {
    var into, from := Triplet(o, l, e), Triplet(l, o, e);
    var cur' := cur;
    if into in tables {
      assert cur[into] == tables[into];
      var d := A.DropOut(cur[into], lid, 0);
      if d.None? {
        assert DropTable(k, into, tables[into], l, lid).None?;
        return None;
      }
      cur' := cur'[into := d.value];
    }
    if from in tables {
      var d := A.DropIn(cur'[from], lid);
      if d.None? {
        assert DropTable(k, from, tables[from], l, lid).None?;
        return None;
      }
      cur' := cur'[from := d.value];
    }
    PairDropped(k, tables, l, lid, o, e, cur, cur');
    r := Some(cur');
  }

  lemma PairDropped(k: Kinds, tables: Tables, l: nat, lid: nat, o: nat, e: nat, cur: Tables, cur': Tables)
    requires DroppedSoFar(k, tables, l, lid, o, e, cur) && cur'.Keys == tables.Keys
    requires forall t | t in tables && t != Triplet(o, l, e) && t != Triplet(l, o, e) :: cur'[t] == cur[t]
    requires Triplet(o, l, e) in tables ==>
               DropTable(k, Triplet(o, l, e), tables[Triplet(o, l, e)], l, lid) == Some(cur'[Triplet(o, l, e)])
    requires Triplet(l, o, e) in tables ==>
               DropTable(k, Triplet(l, o, e), tables[Triplet(l, o, e)], l, lid) == Some(cur'[Triplet(l, o, e)])
    ensures DroppedSoFar(k, tables, l, lid, o, e + 1, cur')
  {
    forall t | t in tables
      ensures if Touches(t, l) && Visited(t, l, o, e + 1) then DropTable(k, t, tables[t], l, lid) == Some(cur'[t])
              else cur'[t] == tables[t]
    {
      if Touches(t, l) { VisitedNext(t, l, o, e); }
    }
  }

  /** Removing a vertex from every table, label by label; None where a search fails. */
  method DropVertex(k: Kinds, tables: Tables, vlabels: nat, elabels: nat, l: nat, lid: nat) returns (r: Option<Tables>)
    requires InSchema(tables, vlabels, elabels) && l in k.valid
    ensures r == DropTables(k, tables, l, lid)
  {
    var cur := tables;
    for o := 0 to vlabels
      invariant DroppedSoFar(k, tables, l, lid, o, 0, cur)
    {
      if o in k.valid {
        for e := 0 to elabels
          invariant DroppedSoFar(k, tables, l, lid, o, e, cur)
        {
          var d := DropPair(k, tables, l, lid, o, e, cur);
          if d.None? { return None; }
          cur := d.value;
        }
      }
      assert forall t | t in tables :: Visited(t, l, o + 1, 0) <==> Visited(t, l, o, elabels);
    }
    AllDropped(k, tables, l, lid, cur);
    r := Some(cur);
  }

  lemma AllDropped(k: Kinds, tables: Tables, l: nat, lid: nat, cur: Tables)
    requires cur.Keys == tables.Keys && forall t | t in tables :: DropTable(k, t, tables[t], l, lid) == Some(cur[t])
    ensures DropTables(k, tables, l, lid) == Some(cur)
  {
    assert DropTables(k, tables, l, lid).Some?;
    assert DropTables(k, tables, l, lid).value == cur;
  }
}
