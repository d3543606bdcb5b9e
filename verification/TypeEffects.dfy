/**
 * What creating and dropping types does in the transaction, in recovery and at commit, and that the
 * changes of columns and edges go to the type they name and to no other.
 */
module TypeEffects {
  import opened Wrappers
  import opened Columns
  import opened TypeDeferral
  import A = Adjacency
  import D = Deferral
  import DE = DataEffects
  import DFE = DeferralEffects
  import E = EdgeDeferral
  import R = Rebuild

  /** Only the entry of that key is another. */
  predicate OnlyAt<K(==), T(==)>(a: map<K, T>, b: map<K, T>, k: K) {
    b.Keys == a.Keys + {k} && forall j | j in a && j != k :: b[j] == a[j]
  }

  ghost predicate NoEdges(t: A.Table) { forall u: nat :: DE.Slots(t.out, u) == [] && DE.Slots(t.inc, u) == [] }

  /** The triplet joins the label with another one that is still there. */
  predicate Joins(s: Types, t: Triplet, l: nat) {
    && t in s.triplets && t !in s.soft
    && ((t.src == l && t.dst != l && t.dst in s.valid) || (t.dst == l && t.src != l && t.src in s.valid))
  }

  predicate Usable(s: Types, t: Triplet) {
    t.src in s.valid && t.dst in s.valid && t in s.triplets && t !in s.soft
  }

  // ------------------------------------------------------------------------------------
  // In the transaction
  // ------------------------------------------------------------------------------------

  predicate Refused(x: Session, c: Change) {
    match c
    case CreateVertexType(l, _) => l in x.s.valid
    case CreateEdgeType(t, _) => t.src !in x.s.valid || t.dst !in x.s.valid || t in x.s.triplets
    case DropVertexType(l) => l !in x.s.valid
    case DropEdgeType(t) => !Usable(x.s, t)
    case OnColumns(l, _) => l !in x.s.valid
    case OnEdges(t, _) => !Usable(x.s, t)
  }

  ghost predicate DoneHere(x: Session, c: Change, y: Session) {
    match c
    case CreateVertexType(l, v) =>
      && y.s == Types(x.s.valid + {l}, x.s.triplets, x.s.soft) && y.labels == x.labels && y.edges == x.edges
      && y.tabs == x.tabs && OnlyAt(x.cols, y.cols, l) && y.cols[l].v == v && y.cols[l].deleted == {}
    case CreateEdgeType(t, v) =>
      && y.s == Types(x.s.valid, x.s.triplets + {t}, x.s.soft) && y.labels == x.labels && y.edges == x.edges
      && y.cols == x.cols && OnlyAt(x.tabs, y.tabs, t) && NoEdges(y.tabs[t].tab)
      && y.tabs[t].cols.v == v && y.tabs[t].cols.deleted == {}
    case DropVertexType(l) =>
      && y.s == Types(x.s.valid - {l}, x.s.triplets, x.s.soft) && y.labels == x.labels + {l}
      && y.cols == x.cols && y.tabs == x.tabs && forall t :: t in y.edges <==> t in x.edges || Joins(x.s, t, l)
    case DropEdgeType(t) =>
      && y.s == Types(x.s.valid, x.s.triplets, x.s.soft + {t}) && y.labels == x.labels && y.edges == x.edges + {t}
      && y.cols == x.cols && y.tabs == x.tabs
    case OnColumns(l, op) =>
      && y.s == x.s && y.labels == x.labels && y.edges == x.edges && y.tabs == x.tabs
      && OnlyAt(x.cols, y.cols, l) && (l in x.cols ==> DFE.DoneHere(x.cols[l], op, y.cols[l]))
    case OnEdges(t, e) =>
      && y.s == x.s && y.labels == x.labels && y.edges == x.edges && y.cols == x.cols
      && OnlyAt(x.tabs, y.tabs, t) && (t in x.tabs ==> y.tabs[t] == E.Live(x.tabs[t], e))
  }

  /** Refused, and nothing changes; or done. */
  lemma LiveDoes(x: Session, c: Change)
    ensures if Refused(x, c) then Live(x, c) == x else DoneHere(x, c, Live(x, c))
  {
    match c
    case OnColumns(l, op) => DFE.LiveStepDoes(ColumnsOf(x, l), op);
    case _ =>
  }

  /** What is in the log: what passes the transaction's own checks, whether or not the storage then refuses it. */
  ghost predicate Logs(x: Session, c: Change) {
    match c
    case CreateVertexType(l, _) => l !in x.s.valid
    case CreateEdgeType(t, _) => !Usable(x.s, t)
    case DropVertexType(l) => l in x.s.valid
    case DropEdgeType(t) => Usable(x.s, t)
    case OnColumns(l, op) => l in x.s.valid && (l in x.cols ==> DFE.Logs(x.cols[l], op))
    case OnEdges(t, e) => Usable(x.s, t) && (t in x.tabs ==> EdgeLogs(x.tabs[t], e))
  }

  ghost predicate EdgeLogs(x: E.Edges, e: E.Change) {
    match e
    case OnColumns(op) => !op.Set? && DFE.Logs(x.cols, op)
    case SetEdge(_, _, _, _, col, _) => col < |x.cols.v.cols| && !x.cols.v.cols[col].dead
    case _ => true
  }

  /** Recovery meets exactly what was logged. */
  lemma LogHas(x: Session, w: Stored, c: Change)
    requires (c.OnColumns? ==> c.l in x.cols) && (c.OnEdges? ==> c.t in x.tabs)
    ensures Logged(x, c) <==> Logs(x, c)
    ensures ReplayOf(x, w, c) == if Logs(x, c) then Replayed(w, c) else Some(w)
  {
    match c
    case OnColumns(l, op) => DFE.LoggedIs(x.cols[l], op);
    case OnEdges(t, e) => EdgeLogHas(x.tabs[t], e);
    case _ =>
  }

  lemma EdgeLogHas(x: E.Edges, e: E.Change)
    ensures E.Logged(x, e) <==> EdgeLogs(x, e)
  {
    if e.OnColumns? { DFE.LoggedIs(x.cols, e.op); }
  }

  // ------------------------------------------------------------------------------------
  // In recovery
  // ------------------------------------------------------------------------------------

  ghost predicate DoneThere(w: Stored, c: Change, z: Stored) {
    match c
    case CreateVertexType(l, v) =>
      if l in w.s.valid then z == w
      else
        && z.s == Types(w.s.valid + {l}, w.s.triplets, w.s.soft) && z.tabs == w.tabs
        && OnlyAt(w.cols, z.cols, l) && z.cols[l] == v
    case CreateEdgeType(t, v) =>
      if t.src !in w.s.valid || t.dst !in w.s.valid || t in w.s.triplets then z == w
      else
        && z.s == Types(w.s.valid, w.s.triplets + {t}, w.s.soft) && z.cols == w.cols
        && OnlyAt(w.tabs, z.tabs, t) && z.tabs[t].v == v && NoEdges(z.tabs[t].tab)
    case DropVertexType(l) =>
      && z.s.valid == w.s.valid - {l} && z.s.soft == w.s.soft
      && (forall t :: t in z.s.triplets <==> t in w.s.triplets && !Joins(w.s, t, l))
      && (forall m :: m in z.cols <==> m in w.cols && m != l) && (forall m | m in z.cols :: z.cols[m] == w.cols[m])
      && (forall t :: t in z.tabs <==> t in w.tabs && t in z.s.triplets)
      && (forall t | t in z.tabs :: z.tabs[t] == w.tabs[t])
    case DropEdgeType(t) =>
      && z.s == Types(w.s.valid, w.s.triplets - {t}, w.s.soft - {t}) && z.cols == w.cols
      && (forall r :: r in z.tabs <==> r in w.tabs && r != t) && (forall r | r in z.tabs :: z.tabs[r] == w.tabs[r])
    case OnColumns(l, op) =>
      if l !in w.cols then z == w
      else
        && z.s == w.s && z.tabs == w.tabs && OnlyAt(w.cols, z.cols, l)
        && (Valid(w.cols[l]) ==> DFE.DoneThere(w.cols[l], op, z.cols[l]))
    case OnEdges(t, e) =>
      && z.s == w.s && z.cols == w.cols && t in w.tabs && OnlyAt(w.tabs, z.tabs, t)
      && E.Replayed(w.tabs[t], e) == Some(z.tabs[t])
  }

  /** Recovery fails on edges only. */
  lemma ReplayedDoes(w: Stored, c: Change)
    ensures var z := Replayed(w, c);
      && (z.None? <==> c.OnEdges? && (c.t !in w.tabs || E.Replayed(w.tabs[c.t], c.c).None?))
      && (z.Some? ==> DoneThere(w, c, z.value))
  {
    match c
    case OnColumns(l, op) => if l in w.cols && Valid(w.cols[l]) { DFE.ReplayStepDoes(w.cols[l], op); }
    case DropVertexType(l) => RemovalIs(w.s, l);
    case _ =>
  }

  lemma RemovalIs(s: Types, l: nat)
    ensures var r := RemoveVertexType(s, l);
      && r.valid == s.valid - {l} && r.soft == s.soft
      && forall t :: t in r.triplets <==> t in s.triplets && !Joins(s, t, l)
  {
  }

  // ------------------------------------------------------------------------------------
  // At commit
  // ------------------------------------------------------------------------------------

  /** The i-th label to go takes the triplet with it: its other end is there and does not go before. */
  predicate GoesWith(s: Types, order: seq<nat>, t: Triplet, i: nat)
    requires i < |order|
  {
    && t !in s.soft
    && ((t.src == order[i] && t.dst in s.valid && t.dst !in order[..i + 1])
        || (t.dst == order[i] && t.src in s.valid && t.src !in order[..i + 1]))
  }

  predicate Left(s: Types, order: seq<nat>, t: Triplet) {
    t in s.triplets && forall i: nat | i < |order| :: !GoesWith(s, order, t, i)
  }

  lemma LeftLess(s: Types, order: seq<nat>, t: Triplet)
    requires order != []
    ensures Left(s, order, t) <==> Left(s, order[..|order| - 1], t) && !GoesWith(s, order, t, |order| - 1)
  {
    var n := |order| - 1;
    forall i: nat | i < n ensures GoesWith(s, order, t, i) <==> GoesWith(s, order[..n], t, i) {
      assert order[..n][..i + 1] == order[..i + 1];
    }
  }

  /** One label after the other. */
  lemma {:induction false} LabelsGo(s: Types, order: seq<nat>)
    ensures var r := RemoveLabels(s, order);
      && (forall l :: l in r.valid <==> l in s.valid && l !in order) && r.soft == s.soft
      && (forall t :: t in r.triplets <==> Left(s, order, t))
  {
    if order != [] {
      var n := |order| - 1;
      var q, l := RemoveLabels(s, order[..n]), order[n];
      LabelsGo(s, order[..n]);
      RemovalIs(q, l);
      assert order == order[..n] + [l];
      forall t ensures t in RemoveLabels(s, order).triplets <==> Left(s, order, t) {
        LeftLess(s, order, t);
        assert order[..n + 1] == order;
      }
    }
  }

  /** What is left of the types: not what was dropped, nor what goes with a dropped label. */
  ghost predicate TypesAre(x: Session, o: Orders, s: Types) {
    && (forall l :: l in s.valid <==> l in x.s.valid && l !in o.labels)
    && (forall t :: t in s.soft <==> t in x.s.soft && t !in x.edges)
    && (forall t :: t in s.triplets <==> t !in x.edges && Left(x.s, o.labels, t))
  }

  lemma TypesLeftAre(x: Session, o: Orders)
    ensures TypesAre(x, o, TypesLeft(x, o))
  {
    var s := RemoveEdgeTypes(x.s, x.edges);
    LabelsGo(s, o.labels);
    forall t | t !in x.edges ensures Left(s, o.labels, t) <==> Left(x.s, o.labels, t) {
      forall i: nat | i < |o.labels| ensures GoesWith(s, o.labels, t, i) <==> GoesWith(x.s, o.labels, t, i) { }
    }
  }

  /** An edge type that is left over without an end, and has columns to be removed. */
  ghost predicate Blocks(x: Session, s: Types, t: Triplet) {
    t in s.triplets && (t.src !in s.valid || t.dst !in s.valid) && t in x.tabs && x.tabs[t].cols.deleted != {}
  }

  function OrderOf<K(==)>(m: map<K, seq<string>>, k: K): (r: seq<string>) { if k in m then m[k] else [] }

  ghost predicate Committed(x: Session, o: Orders, r: Stored) {
    && TypesAre(x, o, r.s) && r.cols.Keys == r.s.valid && r.tabs.Keys == r.s.triplets
    && (forall l | l in r.cols && l in x.cols && Valid(x.cols[l].v) ::
          DFE.Removed(x.cols[l].v, OrderOf(o.cols, l), r.cols[l]))
    && (forall t | t in r.tabs && t in x.tabs :: r.tabs[t] == E.Commit(x.tabs[t], OrderOf(o.edges, t)))
  }

  /** Commit throws exactly where an edge type blocks it, and otherwise leaves what was not dropped. */
  lemma CommitDoes(x: Session, o: Orders)
    ensures var r := Commit(x, o);
      && (r.None? <==> exists t :: Blocks(x, TypesLeft(x, o), t))
      && (r.Some? ==> Committed(x, o, r.value))
  {
    var s := TypesLeft(x, o);
    TypesLeftAre(x, o);
    BlocksIs(x, s);
    if !Stuck(x, s) {
      forall l | l in s.valid && l in x.cols && Valid(x.cols[l].v)
        ensures DFE.Removed(x.cols[l].v, OrderOf(o.cols, l), D.Commit(ColumnsOf(x, l), OrderOf(o.cols, l)))
      {
        DFE.CommitDoes(x.cols[l], OrderOf(o.cols, l));
      }
    }
  }

  lemma BlocksIs(x: Session, s: Types)
    ensures Stuck(x, s) <==> exists t :: Blocks(x, s, t)
  {
    forall t | t in s.triplets ensures Blocks(x, s, t) <==> !Ends(s, t) && EdgesOf(x, t).cols.deleted != {} { }
    if Stuck(x, s) {
      var t :| t in s.triplets && !Ends(s, t) && EdgesOf(x, t).cols.deleted != {};
      assert Blocks(x, s, t);
    }
  }
}
