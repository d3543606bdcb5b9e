/**
 * What transactions log, and what the records of an update transaction do: they name vertices by
 * oid but edges by positions in adjacency lists and, for a vertex removal, by lids, so that their
 * meaning depends on the order in which the lists were filled.
 */
module Records {
  import opened Wrappers

  datatype VKey = VKey(vlabel: nat, oid: int)

  /** A typed property value. */
  datatype Prop = Prop(tid: nat, value: int)

  /** A vertex is known by its label and oid, an edge by the log position that made it. */
  datatype ItemKey = V(v: VKey) | E(ts: nat, pos: nat)

  /** An edge has a slot with a payload in an outgoing and in an incoming list; a deleted slot has none. */
  datatype Content =
    | Vertex(props: seq<Prop>)
    | Link(src: VKey, dst: VKey, elabel: nat, out: Option<seq<Prop>>, inc: Option<seq<Prop>>)

  type View = map<ItemKey, Content>

  datatype Record =
    | InsertVertex(v: VKey, props: seq<Prop>)
    | InsertEdge(src: VKey, dst: VKey, elabel: nat, props: seq<Prop>)

  /** A record of an update transaction: new items, and changes addressed by oid or by offset. */
  datatype Change =
    | Insert(r: Record)
    | SetVertex(v: VKey, col: nat, value: Prop)
    | RemoveVertex(v: VKey)
    | RemoveEdge(src: VKey, dst: VKey, elabel: nat, oe: nat, ie: nat)
    | SetEdge(src: VKey, dst: VKey, elabel: nat, oe: nat, ie: nat, col: nat, value: Prop)

  function KeyOfRecord(r: Record, ts: nat, pos: nat): (k: ItemKey) {
    if r.InsertVertex? then V(r.v) else E(ts, pos)
  }

  function ContentOf(r: Record): (x: Content) {
    match r
    case InsertVertex(_, props) => Vertex(props)
    case InsertEdge(src, dst, elabel, props) => Link(src, dst, elabel, Some(props), Some(props))
  }

  // ------------------------------------------------------------------------------------
  // The lists
  // ------------------------------------------------------------------------------------

  /** The rows of a label, and a vertex's edges to or from a label. */
  datatype ListId = Rows(l: nat) | Out(v: VKey, far: nat, elabel: nat) | In(v: VKey, far: nat, elabel: nat)

  /** A place in a list, with the record that filled it; it stays when the item goes. */
  datatype Slot = Slot(ts: nat, pos: nat, key: ItemKey)

  type Layout = map<ListId, seq<Slot>>

  function ListOf(m: Layout, id: ListId): (l: seq<Slot>) { if id in m then m[id] else [] }

  function Push(m: Layout, id: ListId, s: Slot): (r: Layout) { m[id := ListOf(m, id) + [s]] }

  /** The place of an item in a list. */
  function SlotOf(l: seq<Slot>, k: ItemKey, i: nat): (r: Option<nat>)
    ensures r.Some? ==> i <= r.value < |l| && l[r.value].key == k
    ensures r.None? ==> forall j | i <= j < |l| :: l[j].key != k
    decreases |l| - i
  {
    if i >= |l| then None else if l[i].key == k then Some(i) else SlotOf(l, k, i + 1)
  }

  /** The lid of a vertex: its place among the rows of its label. */
  function Lid(m: Layout, v: VKey): (r: Option<nat>) { SlotOf(ListOf(m, Rows(v.vlabel)), V(v), 0) }

  /** A new edge gets its incoming slot first. */
  function PlaceIn(m: Layout, ts: nat, pos: nat, r: Record): (m': Layout)
    requires r.InsertEdge?
  {
    Push(m, In(r.dst, r.src.vlabel, r.elabel), Slot(ts, pos, E(ts, pos)))
  }

  /** A new oid gets a row; a new edge whose incoming slot is there gets its outgoing one. */
  function PlaceRest(m: Layout, ts: nat, pos: nat, r: Record): (m': Layout) {
    match r
    case InsertVertex(v, _) =>
      if Lid(m, v).Some? then m else Push(m, Rows(v.vlabel), Slot(ts, pos, V(v)))
    case InsertEdge(src, dst, elabel, _) => Push(m, Out(src, dst.vlabel, elabel), Slot(ts, pos, E(ts, pos)))
  }

  /** Both at once. */
  function Place(m: Layout, ts: nat, pos: nat, r: Record): (m': Layout) {
    PlaceRest(if r.InsertEdge? then PlaceIn(m, ts, pos, r) else m, ts, pos, r)
  }

  // ------------------------------------------------------------------------------------
  // Slots and what they show
  // ------------------------------------------------------------------------------------

  datatype Side = Outgoing | Incoming

  function Shown(v: View, k: ItemKey, side: Side): (p: Option<seq<Prop>>) {
    if k in v && v[k].Link? then (if side.Outgoing? then v[k].out else v[k].inc) else None
  }

  /** One slot of an edge changed; an edge without slots is gone. */
  function WithSide(v: View, k: ItemKey, side: Side, p: Option<seq<Prop>>): (r: View)
    requires k in v && v[k].Link?
  {
    var c := if side.Outgoing? then v[k].(out := p) else v[k].(inc := p);
    if c.out.None? && c.inc.None? then v - {k} else v[k := c]
  }

  /** delete_edge: an already deleted slot is only reported. */
  function Kill(v: View, k: ItemKey, side: Side): (r: View) {
    if Shown(v, k, side).None? then v else WithSide(v, k, side, None)
  }

  function SetSlot(v: View, k: ItemKey, side: Side, col: nat, value: Prop): (r: View) {
    match Shown(v, k, side)
    case None => v
    case Some(p) => if col < |p| then WithSide(v, k, side, Some(p[col := value])) else v
  }

  /** The item in a raw slot; None beyond the end. */
  function At(l: seq<Slot>, k: nat): (r: Option<ItemKey>) { if k < |l| then Some(l[k].key) else None }

  /** The item in the r-th slot that shows something. */
  function Nth(v: View, l: seq<Slot>, r: nat, side: Side, i: nat): (k: Option<ItemKey>)
    ensures k.Some? ==> Shown(v, k.value, side).Some?
    decreases |l| - i
  {
    if i >= |l| then None
    else if Shown(v, l[i].key, side).None? then Nth(v, l, r, side, i + 1)
    else if r == 0 then Some(l[i].key)
    else Nth(v, l, r - 1, side, i + 1)
  }

  // ------------------------------------------------------------------------------------
  // What a record does
  // ------------------------------------------------------------------------------------

  /**
   * The edges a removal takes: those into the vertex's label from whatever vertex has the same
   * lid in the label they come from, and those from its label to whatever vertex has that lid.
   */
  predicate Hit(m: Layout, l: nat, lid: nat, c: Content) {
    c.Link? && ((c.dst.vlabel == l && Lid(m, c.src) == Some(lid)) || (c.src.vlabel == l && Lid(m, c.dst) == Some(lid)))
  }

  function Victims(v: View, m: Layout, x: VKey): (r: set<ItemKey>) {
    if Lid(m, x).None? then {} else set k | k in v && k.E? && Hit(m, x.vlabel, Lid(m, x).value, v[k])
  }

  predicate Torn(c: Content) { c.Link? && (c.out.None? || c.inc.None?) }

  predicate BothEnds(v: View, src: VKey, dst: VKey) { V(src) in v && V(dst) in v }

  function OutList(m: Layout, c: Change): (l: seq<Slot>)
    requires c.RemoveEdge? || c.SetEdge?
  {
    ListOf(m, Out(c.src, c.dst.vlabel, c.elabel))
  }

  function InList(m: Layout, c: Change): (l: seq<Slot>)
    requires c.RemoveEdge? || c.SetEdge?
  {
    ListOf(m, In(c.dst, c.src.vlabel, c.elabel))
  }

  /** One record on top of a view, with the lists as they are; None where the original fails. */
  function Effect(v: View, m: Layout, ts: nat, pos: nat, c: Change): (r: Option<View>) {
    match c
    case Insert(r) =>
      if r.InsertVertex? then Some(if V(r.v) in v then v else v[V(r.v) := ContentOf(r)])
      else if BothEnds(v, r.src, r.dst) then Some(v[E(ts, pos) := ContentOf(r)]) else None
    case SetVertex(x, col, value) =>
      if V(x) !in v || !v[V(x)].Vertex? then None
      else Some(if col < |v[V(x)].props| then v[V(x) := Vertex(v[V(x)].props[col := value])] else v)
    case RemoveVertex(x) =>
      if V(x) !in v || Lid(m, x).None? || (exists k | k in Victims(v, m, x) :: Torn(v[k])) then None
      else Some(v - (Victims(v, m, x) + {V(x)}))
    case RemoveEdge(src, dst, _, oe, ie) =>
      var a, b := At(OutList(m, c), oe), At(InList(m, c), ie);
      if !BothEnds(v, src, dst) || a.None? || b.None? then None
      else Some(Kill(Kill(v, a.value, Outgoing), b.value, Incoming))
    case SetEdge(src, dst, _, oe, ie, col, value) =>
      var a, b := Nth(v, OutList(m, c), oe, Outgoing, 0), Nth(v, InList(m, c), ie, Incoming, 0);
      if !BothEnds(v, src, dst) || a.None? || b.None? then None
      else Some(SetSlot(SetSlot(v, a.value, Outgoing, col, value), b.value, Incoming, col, value))
  }

  function PlaceChange(m: Layout, ts: nat, pos: nat, c: Change): (m': Layout) {
    if c.Insert? then Place(m, ts, pos, c.r) else m
  }

  // ------------------------------------------------------------------------------------
  // When two layouts give a record the same meaning
  // ------------------------------------------------------------------------------------

  /** What a raw slot shows on that side, if it shows anything. */
  function Target(v: View, l: seq<Slot>, k: nat, side: Side): (r: Option<Option<ItemKey>>) {
    match At(l, k)
    case None => None
    case Some(key) => Some(if Shown(v, key, side).Some? then Some(key) else None)
  }

  predicate Changes(v: View, k: ItemKey, side: Side, col: nat, value: Prop) {
    var p := Shown(v, k, side);
    p.Some? && col < |p.value| && p.value[col] != value
  }

  /** The same slot, or no change to either. */
  predicate SameSet(v: View, a: Option<ItemKey>, b: Option<ItemKey>, side: Side, col: nat, value: Prop) {
    a.Some? && b.Some? && (a == b || (!Changes(v, a.value, side, col, value) && !Changes(v, b.value, side, col, value)))
  }

  /** In both layouts the record addresses the same items. */
  predicate Alike(v: View, m: Layout, n: Layout, c: Change) {
    match c
    case Insert(_) => true
    case SetVertex(_, _, _) => true
    case RemoveVertex(x) => Lid(n, x).Some? && Victims(v, m, x) == Victims(v, n, x)
    case RemoveEdge(_, _, _, oe, ie) =>
      && Target(v, OutList(m, c), oe, Outgoing) == Target(v, OutList(n, c), oe, Outgoing)
      && Target(v, InList(m, c), ie, Incoming) == Target(v, InList(n, c), ie, Incoming)
    case SetEdge(_, _, _, oe, ie, col, value) =>
      && SameSet(v, Nth(v, OutList(m, c), oe, Outgoing, 0), Nth(v, OutList(n, c), oe, Outgoing, 0),
                 Outgoing, col, value)
      && SameSet(v, Nth(v, InList(m, c), ie, Incoming, 0), Nth(v, InList(n, c), ie, Incoming, 0), Incoming, col, value)
  }

  // One slot at a time.

  lemma KillShows(v: View, k: ItemKey, side: Side, j: ItemKey, s: Side)
    ensures Shown(Kill(v, k, side), j, s) == if j == k && s == side then None else Shown(v, j, s)
  {
  }

  lemma SetShows(v: View, k: ItemKey, side: Side, col: nat, value: Prop, j: ItemKey, s: Side)
    ensures Shown(SetSlot(v, k, side, col, value), j, s)
            == var p := Shown(v, j, s);
               if j == k && s == side && p.Some? && col < |p.value| then Some(p.value[col := value]) else p
  {
  }

  lemma KillTarget(v: View, l: seq<Slot>, k: nat, side: Side)
    requires k < |l|
    ensures Kill(v, l[k].key, side) == match Target(v, l, k, side).value case None => v case Some(a) => Kill(v, a, side)
  {
  }

  /** After both kills, a side shows what it showed but for its own target. */
  lemma KilledShows(v: View, a: ItemKey, b: ItemKey, j: ItemKey, s: Side)
    ensures Shown(Kill(Kill(v, a, Outgoing), b, Incoming), j, s)
            == if (s.Outgoing? && j == a) || (s.Incoming? && j == b) then None else Shown(v, j, s)
  {
    KillShows(Kill(v, a, Outgoing), b, Incoming, j, s);
    KillShows(v, a, Outgoing, j, s);
  }

  lemma TargetShown(v: View, l: seq<Slot>, k: nat, side: Side, l': seq<Slot>, k': nat)
    requires k < |l| && k' < |l'| && Target(v, l, k, side) != Target(v, l', k', side)
    ensures l[k].key != l'[k'].key
    ensures Shown(v, l[k].key, side).Some? || Shown(v, l'[k'].key, side).Some?
  {
  }

  lemma SameTargetSameKill(v: View, l: seq<Slot>, k: nat, l': seq<Slot>, k': nat, side: Side)
    requires k < |l| && k' < |l'| && Target(v, l, k, side) == Target(v, l', k', side)
    ensures Kill(v, l[k].key, side) == Kill(v, l'[k'].key, side)
  {
    KillTarget(v, l, k, side);
    KillTarget(v, l', k', side);
  }

  lemma TargetAfter(v: View, a: ItemKey, l: seq<Slot>, k: nat)
    ensures Target(Kill(v, a, Outgoing), l, k, Incoming) == Target(v, l, k, Incoming)
  {
    if k < |l| { KillShows(v, a, Outgoing, l[k].key, Incoming); }
  }

  lemma RemoveEdgeExact(v: View, m: Layout, n: Layout, ts: nat, pos: nat, c: Change)
    requires c.RemoveEdge? && Effect(v, m, ts, pos, c).Some?
    ensures Effect(v, n, ts, pos, c) == Effect(v, m, ts, pos, c) <==> Alike(v, m, n, c)
  {
    var x, y, x', y' := OutList(m, c), InList(m, c), OutList(n, c), InList(n, c);
    if c.oe < |x'| && c.ie < |y'| {
      var a, b, a', b' := x[c.oe].key, y[c.ie].key, x'[c.oe].key, y'[c.ie].key;
      if Alike(v, m, n, c) {
        SameTargetSameKill(v, x, c.oe, x', c.oe, Outgoing);
        TargetAfter(v, a, y, c.ie);
        TargetAfter(v, a, y', c.ie);
        SameTargetSameKill(Kill(v, a, Outgoing), y, c.ie, y', c.ie, Incoming);
      } else if Target(v, x, c.oe, Outgoing) != Target(v, x', c.oe, Outgoing) {
        TargetShown(v, x, c.oe, Outgoing, x', c.oe);
        KillsDiffer(v, a, b, a', b', Outgoing);
      } else {
        TargetShown(v, y, c.ie, Incoming, y', c.ie);
        KillsDiffer(v, a, b, a', b', Incoming);
      }
    }
  }

  lemma KillsDiffer(v: View, a: ItemKey, b: ItemKey, a': ItemKey, b': ItemKey, side: Side)
    requires if side.Outgoing? then a != a' && (Shown(v, a, side).Some? || Shown(v, a', side).Some?)
             else b != b' && (Shown(v, b, side).Some? || Shown(v, b', side).Some?)
    ensures Kill(Kill(v, a, Outgoing), b, Incoming) != Kill(Kill(v, a', Outgoing), b', Incoming)
  {
    var x, y := if side.Outgoing? then a else b, if side.Outgoing? then a' else b';
    KilledShows(v, a, b, x, side);
    KilledShows(v, a', b', x, side);
    KilledShows(v, a, b, y, side);
    KilledShows(v, a', b', y, side);
  }

  lemma UnchangedSlot(v: View, k: ItemKey, side: Side, col: nat, value: Prop)
    requires !Changes(v, k, side, col, value)
    ensures SetSlot(v, k, side, col, value) == v
  {
    var p := Shown(v, k, side);
    if p.Some? && col < |p.value| { assert p.value[col := value] == p.value; }
  }

  lemma SetAfter(v: View, a: ItemKey, col: nat, value: Prop, k: ItemKey)
    ensures Changes(SetSlot(v, a, Outgoing, col, value), k, Incoming, col, value) == Changes(v, k, Incoming, col, value)
  {
    SetShows(v, a, Outgoing, col, value, k, Incoming);
  }

  lemma BothSetShows(v: View, a: ItemKey, b: ItemKey, col: nat, value: Prop, j: ItemKey, s: Side)
    ensures Shown(SetSlot(SetSlot(v, a, Outgoing, col, value), b, Incoming, col, value), j, s)
            == var p := Shown(v, j, s);
               if j == (if s.Outgoing? then a else b) && p.Some? && col < |p.value| then Some(p.value[col := value])
               else p
  {
    SetShows(SetSlot(v, a, Outgoing, col, value), b, Incoming, col, value, j, s);
    SetShows(v, a, Outgoing, col, value, j, s);
  }

  lemma SetsDiffer(v: View, a: ItemKey, b: ItemKey, a': ItemKey, b': ItemKey, side: Side, col: nat, value: Prop)
    requires var x, y := if side.Outgoing? then a else b, if side.Outgoing? then a' else b';
      x != y && (Changes(v, x, side, col, value) || Changes(v, y, side, col, value))
    ensures SetSlot(SetSlot(v, a, Outgoing, col, value), b, Incoming, col, value)
            != SetSlot(SetSlot(v, a', Outgoing, col, value), b', Incoming, col, value)
  {
    var x, y := if side.Outgoing? then a else b, if side.Outgoing? then a' else b';
    var z := if Changes(v, x, side, col, value) then x else y;
    BothSetShows(v, a, b, col, value, z, side);
    BothSetShows(v, a', b', col, value, z, side);
    var p := Shown(v, z, side).value;
    assert p[col := value][col] != p[col];
  }

  lemma SetsAgree(v: View, a: ItemKey, b: ItemKey, a': ItemKey, b': ItemKey, col: nat, value: Prop)
    requires SameSet(v, Some(a), Some(a'), Outgoing, col, value) && SameSet(v, Some(b), Some(b'), Incoming, col, value)
    ensures SetSlot(SetSlot(v, a, Outgoing, col, value), b, Incoming, col, value)
            == SetSlot(SetSlot(v, a', Outgoing, col, value), b', Incoming, col, value)
  {
    if a != a' {
      UnchangedSlot(v, a, Outgoing, col, value);
      UnchangedSlot(v, a', Outgoing, col, value);
    }
    var w := SetSlot(v, a, Outgoing, col, value);
    SetAfter(v, a, col, value, b);
    SetAfter(v, a, col, value, b');
    if b != b' {
      UnchangedSlot(w, b, Incoming, col, value);
      UnchangedSlot(w, b', Incoming, col, value);
    }
  }

  lemma SetEdgeExact(v: View, m: Layout, n: Layout, ts: nat, pos: nat, c: Change)
    requires c.SetEdge? && Effect(v, m, ts, pos, c).Some?
    ensures Effect(v, n, ts, pos, c) == Effect(v, m, ts, pos, c) <==> Alike(v, m, n, c)
  {
    var a, b := Nth(v, OutList(m, c), c.oe, Outgoing, 0), Nth(v, InList(m, c), c.ie, Incoming, 0);
    var a', b' := Nth(v, OutList(n, c), c.oe, Outgoing, 0), Nth(v, InList(n, c), c.ie, Incoming, 0);
    if a'.Some? && b'.Some? {
      if !SameSet(v, a, a', Outgoing, c.col, c.value) {
        SetsDiffer(v, a.value, b.value, a'.value, b'.value, Outgoing, c.col, c.value);
      } else if !SameSet(v, b, b', Incoming, c.col, c.value) {
        SetsDiffer(v, a.value, b.value, a'.value, b'.value, Incoming, c.col, c.value);
      } else {
        SetsAgree(v, a.value, b.value, a'.value, b'.value, c.col, c.value);
      }
    }
  }

  lemma RemoveVertexExact(v: View, m: Layout, n: Layout, ts: nat, pos: nat, c: Change)
    requires c.RemoveVertex? && Effect(v, m, ts, pos, c).Some?
    ensures Effect(v, n, ts, pos, c) == Effect(v, m, ts, pos, c) <==> Alike(v, m, n, c)
  {
    var p, q := Victims(v, m, c.v), Victims(v, n, c.v);
    if Effect(v, n, ts, pos, c) == Effect(v, m, ts, pos, c) {
      forall k ensures k in p <==> k in q {
        assert k in p || k in q ==> k in v && k != V(c.v);
        assert k in v && k != V(c.v) ==> (k in v - (p + {V(c.v)}) <==> k !in p);
        assert k in v && k != V(c.v) ==> (k in v - (q + {V(c.v)}) <==> k !in q);
      }
    }
  }

  /** A record means the same with both layouts exactly if it addresses the same items. */
  lemma EffectExact(v: View, m: Layout, n: Layout, ts: nat, pos: nat, c: Change)
    requires Effect(v, m, ts, pos, c).Some?
    ensures Effect(v, n, ts, pos, c) == Effect(v, m, ts, pos, c) <==> Alike(v, m, n, c)
  {
    match c
    case Insert(_) =>
    case SetVertex(_, _, _) =>
    case RemoveVertex(_) => RemoveVertexExact(v, m, n, ts, pos, c);
    case RemoveEdge(_, _, _, _, _) => RemoveEdgeExact(v, m, n, ts, pos, c);
    case SetEdge(_, _, _, _, _, _, _) => SetEdgeExact(v, m, n, ts, pos, c);
  }
}
