/**
 * What the records of an update transaction do, item by item and cell by cell, said of the view and
 * the lists themselves; and when they fail.
 */
module RecordEffects {
  import opened Wrappers
  import opened Records

  // ------------------------------------------------------------------------------------
  // Items
  // ------------------------------------------------------------------------------------

  predicate Kept(v: View, u: View, k: ItemKey) { (k in u <==> k in v) && (k in v ==> u[k] == v[k]) }

  function OutOf(v: View, k: ItemKey): (p: Option<seq<Prop>>) { if k in v && v[k].Link? then v[k].out else None }

  function InOf(v: View, k: ItemKey): (p: Option<seq<Prop>>) { if k in v && v[k].Link? then v[k].inc else None }

  /** Cell `col` is the value if it is hit, every other cell is as it was. */
  predicate CellSet(p: seq<Prop>, q: seq<Prop>, hit: bool, col: nat, value: Prop) {
    |q| == |p| && forall j | 0 <= j < |p| :: q[j] == if hit && j == col then value else p[j]
  }

  predicate PayloadSet(p: Option<seq<Prop>>, q: Option<seq<Prop>>, hit: bool, col: nat, value: Prop) {
    (q.Some? <==> p.Some?) && (p.Some? ==> CellSet(p.value, q.value, hit, col, value))
  }

  /** Among the rows of its label the vertex comes first at i. */
  ghost predicate Stands(m: Layout, x: VKey, i: nat) {
    var id := Rows(x.vlabel);
    id in m && i < |m[id]| && m[id][i].key == V(x) && forall j | 0 <= j < i :: m[id][j].key != V(x)
  }

  /** An edge into the label from a vertex with the same place in its own label, or from the label to one. */
  ghost predicate SharesPlace(m: Layout, x: VKey, c: Content, i: nat) {
    c.Link? && Stands(m, x, i)
    && ((c.dst.vlabel == x.vlabel && Stands(m, c.src, i)) || (c.src.vlabel == x.vlabel && Stands(m, c.dst, i)))
  }

  ghost predicate Taken(v: View, m: Layout, x: VKey, k: ItemKey) {
    k in v && k.E? && exists i: nat :: SharesPlace(m, x, v[k], i)
  }

  predicate Shows(v: View, k: ItemKey, out: bool) { (if out then OutOf(v, k) else InOf(v, k)).Some? }

  /** How many of the first i slots show something on the side. */
  function ShowingBefore(v: View, l: seq<Slot>, out: bool, i: nat): (n: nat)
    requires i <= |l|
  {
    if i == 0 then 0
    else ShowingBefore(v, l, out, i - 1) + (if Shows(v, l[i - 1].key, out) then 1 else 0)
  }

  /** Slot i is the r-th that shows something on the side. */
  predicate Ranks(v: View, l: seq<Slot>, out: bool, r: nat, i: nat) {
    i < |l| && Shows(v, l[i].key, out) && ShowingBefore(v, l, out, i) == r
  }

  function Entries(m: Layout, id: ListId): (l: seq<Slot>) { if id in m then m[id] else [] }

  /** The outgoing slot of a and the incoming slot of b are gone; an edge without slots is gone. */
  ghost predicate SlotsGone(v: View, u: View, a: ItemKey, b: ItemKey) {
    forall k :: SlotsGoneAt(v, u, a, b, k)
  }

  predicate SlotsGoneAt(v: View, u: View, a: ItemKey, b: ItemKey, k: ItemKey) {
    if k !in v || !v[k].Link? || (k != a && k != b) then Kept(v, u, k)
    else
      var o, i := if k == a then None else v[k].out, if k == b then None else v[k].inc;
      if o == v[k].out && i == v[k].inc then Kept(v, u, k)
      else if o.None? && i.None? then k !in u
      else k in u && u[k] == Link(v[k].src, v[k].dst, v[k].elabel, o, i)
  }

  /** The outgoing payload of a and the incoming one of b have the value in the column. */
  ghost predicate SlotsSet(v: View, u: View, a: ItemKey, b: ItemKey, col: nat, value: Prop) {
    forall k :: SlotsSetAt(v, u, a, b, col, value, k)
  }

  predicate SlotsSetAt(v: View, u: View, a: ItemKey, b: ItemKey, col: nat, value: Prop, k: ItemKey) {
    && (k in u <==> k in v)
    && (k in v && !v[k].Link? ==> u[k] == v[k])
    && (k in v && v[k].Link? ==>
          && u[k].Link? && u[k].src == v[k].src && u[k].dst == v[k].dst && u[k].elabel == v[k].elabel
          && PayloadSet(v[k].out, u[k].out, k == a, col, value) && PayloadSet(v[k].inc, u[k].inc, k == b, col, value))
  }

  // ------------------------------------------------------------------------------------
  // Records
  // ------------------------------------------------------------------------------------

  /** The record takes the view v to u. */
  ghost predicate Does(v: View, m: Layout, ts: nat, pos: nat, c: Change, u: View) {
    match c
    case Insert(InsertVertex(x, props)) =>
      V(x) in u && (V(x) !in v ==> u[V(x)] == Vertex(props)) && forall k | k != V(x) || V(x) in v :: Kept(v, u, k)
    case Insert(InsertEdge(src, dst, elabel, props)) =>
      && E(ts, pos) in u && u[E(ts, pos)] == Link(src, dst, elabel, Some(props), Some(props))
      && forall k | k != E(ts, pos) :: Kept(v, u, k)
    case SetVertex(x, col, value) =>
      && V(x) in v && V(x) in u && v[V(x)].Vertex? && u[V(x)].Vertex?
      && CellSet(v[V(x)].props, u[V(x)].props, true, col, value)
      && forall k | k != V(x) :: Kept(v, u, k)
    case RemoveVertex(x) =>
      forall k :: if k == V(x) || Taken(v, m, x, k) then k !in u else Kept(v, u, k)
    case RemoveEdge(src, dst, elabel, oe, ie) =>
      var l, n := Entries(m, Out(src, dst.vlabel, elabel)), Entries(m, In(dst, src.vlabel, elabel));
      oe < |l| && ie < |n| && SlotsGone(v, u, l[oe].key, n[ie].key)
    case SetEdge(src, dst, elabel, oe, ie, col, value) =>
      var l, n := Entries(m, Out(src, dst.vlabel, elabel)), Entries(m, In(dst, src.vlabel, elabel));
      exists i: nat, j: nat ::
        Ranks(v, l, true, oe, i) && Ranks(v, n, false, ie, j) && SlotsSet(v, u, l[i].key, n[j].key, col, value)
  }

  /** The record cannot be carried out. */
  ghost predicate Fails(v: View, m: Layout, c: Change) {
    match c
    case Insert(InsertVertex(_, _)) => false
    case Insert(InsertEdge(src, dst, _, _)) => V(src) !in v || V(dst) !in v
    case SetVertex(x, _, _) => V(x) !in v || !v[V(x)].Vertex?
    case RemoveVertex(x) =>
      || V(x) !in v || (forall i: nat :: !Stands(m, x, i))
      || exists k :: Taken(v, m, x, k) && (v[k].out.None? || v[k].inc.None?)
    case RemoveEdge(src, dst, elabel, oe, ie) =>
      || V(src) !in v || V(dst) !in v
      || |Entries(m, Out(src, dst.vlabel, elabel))| <= oe || |Entries(m, In(dst, src.vlabel, elabel))| <= ie
    case SetEdge(src, dst, elabel, oe, ie, _, _) =>
      || V(src) !in v || V(dst) !in v
      || (forall i: nat :: !Ranks(v, Entries(m, Out(src, dst.vlabel, elabel)), true, oe, i))
      || (forall j: nat :: !Ranks(v, Entries(m, In(dst, src.vlabel, elabel)), false, ie, j))
  }

  lemma ListIs(m: Layout, id: ListId)
    ensures ListOf(m, id) == Entries(m, id)
  {
  }

  // Vertices

  lemma LidIs(m: Layout, x: VKey, i: nat)
    ensures Stands(m, x, i) <==> Lid(m, x) == Some(i)
  {
    SlotIsFirst(ListOf(m, Rows(x.vlabel)), V(x), 0);
  }

  lemma {:induction false} SlotIsFirst(l: seq<Slot>, k: ItemKey, i: nat)
    ensures var r := SlotOf(l, k, i); r.Some? ==> forall j | i <= j < r.value :: l[j].key != k
    decreases |l| - i
  {
    if i < |l| && l[i].key != k { SlotIsFirst(l, k, i + 1); }
  }

  lemma VictimIs(v: View, m: Layout, x: VKey, k: ItemKey)
    ensures k in Victims(v, m, x) <==> Taken(v, m, x, k)
  {
    if k in Victims(v, m, x) {
      var i := Lid(m, x).value;
      LidIs(m, x, i);
      LidIs(m, v[k].src, i);
      LidIs(m, v[k].dst, i);
      assert SharesPlace(m, x, v[k], i);
    }
    if Taken(v, m, x, k) {
      var i: nat :| SharesPlace(m, x, v[k], i);
      LidIs(m, x, i);
      LidIs(m, v[k].src, i);
      LidIs(m, v[k].dst, i);
    }
  }

  lemma RemoveVertexDoes(v: View, m: Layout, ts: nat, pos: nat, x: VKey)
    ensures var r := Effect(v, m, ts, pos, RemoveVertex(x));
      && (r.None? <==> Fails(v, m, RemoveVertex(x)))
      && (r.Some? ==> Does(v, m, ts, pos, RemoveVertex(x), r.value))
  {
    forall k ensures k in Victims(v, m, x) <==> Taken(v, m, x, k) { VictimIs(v, m, x, k); }
    forall i: nat ensures Stands(m, x, i) <==> Lid(m, x) == Some(i) { LidIs(m, x, i); }
    if exists k | k in Victims(v, m, x) :: Torn(v[k]) {
      var k :| k in Victims(v, m, x) && Torn(v[k]);
      assert Taken(v, m, x, k);
    }
  }

  // Edges

  lemma GoneShows(v: View, a: ItemKey, b: ItemKey, k: ItemKey)
    ensures SlotsGoneAt(v, Kill(Kill(v, a, Outgoing), b, Incoming), a, b, k)
  {
  }

  lemma SetShowsAt(v: View, a: ItemKey, b: ItemKey, col: nat, value: Prop, k: ItemKey)
    requires OutOf(v, a).Some? && InOf(v, b).Some?
    ensures SlotsSetAt(v, SetSlot(SetSlot(v, a, Outgoing, col, value), b, Incoming, col, value), a, b, col, value, k)
  {
  }

  lemma RemoveEdgeDoes(v: View, m: Layout, ts: nat, pos: nat, c: Change)
    requires c.RemoveEdge?
    ensures var r := Effect(v, m, ts, pos, c);
      (r.None? <==> Fails(v, m, c)) && (r.Some? ==> Does(v, m, ts, pos, c, r.value))
  {
    var l, n := OutList(m, c), InList(m, c);
    ListIs(m, Out(c.src, c.dst.vlabel, c.elabel));
    ListIs(m, In(c.dst, c.src.vlabel, c.elabel));
    if c.oe < |l| && c.ie < |n| {
      var a, b := l[c.oe].key, n[c.ie].key;
      forall k ensures SlotsGoneAt(v, Kill(Kill(v, a, Outgoing), b, Incoming), a, b, k) { GoneShows(v, a, b, k); }
    }
  }

  /** Searching on from slot i for the r-th that shows something. */
  lemma {:induction false} NthRanks(v: View, l: seq<Slot>, r: nat, side: Side, i: nat, q: nat)
    requires i <= |l| && q == ShowingBefore(v, l, side.Outgoing?, i) + r
    ensures var k := Nth(v, l, r, side, i);
      && (k.Some? ==> exists j: nat :: i <= j && Ranks(v, l, side.Outgoing?, q, j) && l[j].key == k.value)
      && (k.None? ==> forall j: nat | i <= j :: !Ranks(v, l, side.Outgoing?, q, j))
    decreases |l| - i
  {
    var out := side.Outgoing?;
    if i < |l| {
      assert Shows(v, l[i].key, out) <==> Shown(v, l[i].key, side).Some?;
      if Shown(v, l[i].key, side).None? {
        NthRanks(v, l, r, side, i + 1, q);
        assert !Ranks(v, l, out, q, i);
      } else if r == 0 {
        assert Ranks(v, l, out, q, i);
      } else {
        NthRanks(v, l, r - 1, side, i + 1, q);
        assert !Ranks(v, l, out, q, i);
      }
    }
  }

  lemma SetEdgeDoes(v: View, m: Layout, ts: nat, pos: nat, c: Change)
    requires c.SetEdge?
    ensures var r := Effect(v, m, ts, pos, c);
      (r.None? <==> Fails(v, m, c)) && (r.Some? ==> Does(v, m, ts, pos, c, r.value))
  {
    var l, n := OutList(m, c), InList(m, c);
    ListIs(m, Out(c.src, c.dst.vlabel, c.elabel));
    ListIs(m, In(c.dst, c.src.vlabel, c.elabel));
    NthRanks(v, l, c.oe, Outgoing, 0, c.oe);
    NthRanks(v, n, c.ie, Incoming, 0, c.ie);
    if Effect(v, m, ts, pos, c).Some? {
      var a, b := Nth(v, l, c.oe, Outgoing, 0).value, Nth(v, n, c.ie, Incoming, 0).value;
      var u := SetSlot(SetSlot(v, a, Outgoing, c.col, c.value), b, Incoming, c.col, c.value);
      forall k ensures SlotsSetAt(v, u, a, b, c.col, c.value, k) { SetShowsAt(v, a, b, c.col, c.value, k); }
    }
  }

  /** A record fails exactly where it cannot be carried out, and otherwise does just what it says. */
  lemma EffectDoes(v: View, m: Layout, ts: nat, pos: nat, c: Change)
    ensures var r := Effect(v, m, ts, pos, c);
      (r.None? <==> Fails(v, m, c)) && (r.Some? ==> Does(v, m, ts, pos, c, r.value))
  {
    match c
    case Insert(_) =>
    case SetVertex(_, _, _) =>
    case RemoveVertex(x) => RemoveVertexDoes(v, m, ts, pos, x);
    case RemoveEdge(_, _, _, _, _) => RemoveEdgeDoes(v, m, ts, pos, c);
    case SetEdge(_, _, _, _, _, _, _) => SetEdgeDoes(v, m, ts, pos, c);
  }

  // ------------------------------------------------------------------------------------
  // Places
  // ------------------------------------------------------------------------------------

  /** The lists that a record fills. */
  predicate Fills(m: Layout, r: Record, id: ListId) {
    match r
    case InsertVertex(x, _) => id == Rows(x.vlabel) && (id in m ==> forall j | 0 <= j < |m[id]| :: m[id][j].key != V(x))
    case InsertEdge(src, dst, elabel, _) => id == Out(src, dst.vlabel, elabel) || id == In(dst, src.vlabel, elabel)
  }

  /** A new vertex or edge gets a slot at the end of its lists, and no other list changes. */
  lemma PlaceDoes(m: Layout, ts: nat, pos: nat, r: Record, id: ListId)
    ensures Entries(Place(m, ts, pos, r), id) == Entries(m, id) +
            (if Fills(m, r, id) then [Slot(ts, pos, if r.InsertVertex? then V(r.v) else E(ts, pos))] else [])
  {
    if r.InsertVertex? && Lid(m, r.v).Some? { LidIs(m, r.v, Lid(m, r.v).value); }
  }
}
