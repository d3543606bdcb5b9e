/**
 * Creating and dropping types inside an update transaction, together with the changes of vertex
 * columns and of edge types: what is dropped is marked at once and removed at commit (edge types,
 * then vertex types, then vertex columns, then edge columns); recovery replays the log and removes
 * at once.  Exactly when the two agree.
 */
module TypeDeferral {
  import opened Wrappers
  import opened Columns
  import opened DeferralExact
  import A = Adjacency
  import D = Deferral
  import E = EdgeDeferral
  import R = Rebuild

  // ------------------------------------------------------------------------------------
  // Types
  // ------------------------------------------------------------------------------------

  /** Labels without a tombstone, the triplets the schema knows, and those among them with one. */
  datatype Types = Types(valid: set<nat>, triplets: set<Triplet>, soft: set<Triplet>)

  datatype Change =
    | CreateVertexType(l: nat, v: VType)
    | CreateEdgeType(t: Triplet, v: VType)
    | DropVertexType(l: nat)
    | DropEdgeType(t: Triplet)
    | OnColumns(l: nat, op: Op)
    | OnEdges(t: Triplet, c: E.Change)

  /** The transaction: the types, the labels and triplets to be removed, the columns and the edge types. */
  datatype Session =
    Session(s: Types, labels: set<nat>, edges: set<Triplet>, cols: map<nat, D.Deferred>, tabs: map<Triplet, E.Edges>)

  /** A committed or recovered graph. */
  datatype Stored = Stored(s: Types, cols: map<nat, VType>, tabs: map<Triplet, E.Kept>)

  predicate Ends(s: Types, t: Triplet) { t.src in s.valid && t.dst in s.valid }

  predicate Exists(s: Types, t: Triplet) { Ends(s, t) && t in s.triplets && t !in s.soft }

  /** The triplets that go with a label: those whose other end is still there. */
  function Incident(s: Types, l: nat): (r: set<Triplet>) {
    set t | t in s.triplets && t !in s.soft && ((t.src == l && t.dst in s.valid) || (t.dst == l && t.src in s.valid))
  }

  function ColumnsOf(x: Session, l: nat): (r: D.Deferred) {
    if l in x.cols then x.cols[l] else D.Deferred(VType(None, [], map[], 0), {})
  }

  function EdgesOf(x: Session, t: Triplet): (r: E.Edges) {
    if t in x.tabs then x.tabs[t] else E.Begin(NewEdges(VType(None, [], map[], 0)))
  }

  function NewEdges(v: VType): (r: E.Kept) { E.Kept(v, A.Table(map[], map[])) }

  /** The record goes to the log before the storage is asked, after the transaction's own checks. */
  predicate Logged(x: Session, c: Change) {
    match c
    case CreateVertexType(l, _) => l !in x.s.valid
    case CreateEdgeType(t, _) => !Exists(x.s, t)
    case DropVertexType(l) => l in x.s.valid
    case DropEdgeType(t) => Exists(x.s, t)
    case OnColumns(l, op) => l in x.s.valid && D.Logged(ColumnsOf(x, l), op)
    case OnEdges(t, c) => Exists(x.s, t) && E.Logged(EdgesOf(x, t), c)
  }

  /**
   * Creating a vertex type under a label dropped by this transaction reports an error, but only
   * after the tombstone was taken away; creating a dropped edge type is refused by the storage.
   */
  function Live(x: Session, c: Change): (y: Session) {
    match c
    case CreateVertexType(l, v) =>
      if l in x.s.valid then x
      else x.(s := x.s.(valid := x.s.valid + {l}), cols := x.cols[l := D.Deferred(v, {})])
    case CreateEdgeType(t, v) =>
      if !Ends(x.s, t) || t in x.s.triplets then x
      else x.(s := x.s.(triplets := x.s.triplets + {t}), tabs := x.tabs[t := E.Begin(NewEdges(v))])
    case DropVertexType(l) =>
      if l !in x.s.valid then x
      else
        var s := x.s.(valid := x.s.valid - {l});
        x.(s := s, labels := x.labels + {l}, edges := x.edges + Incident(s, l))
    case DropEdgeType(t) =>
      if !Exists(x.s, t) then x
      else x.(s := x.s.(soft := x.s.soft + {t}), edges := x.edges + {t})
    case OnColumns(l, op) =>
      if l !in x.s.valid then x
      else x.(cols := x.cols[l := D.LiveStep(ColumnsOf(x, l), op)])
    case OnEdges(t, c) =>
      if !Exists(x.s, t) then x
      else x.(tabs := x.tabs[t := E.Live(EdgesOf(x, t), c)])
  }

  /** Removing a vertex type for good, with its incident triplets. */
  function RemoveVertexType(s: Types, l: nat): (r: Types) {
    var s' := s.(valid := s.valid - {l});
    s'.(triplets := s'.triplets - Incident(s', l))
  }

  function RemoveEdgeTypes(s: Types, ts: set<Triplet>): (r: Types) {
    s.(triplets := s.triplets - ts, soft := s.soft - ts)
  }

  /** The edge types that are left. */
  function Only<T>(m: map<Triplet, T>, ts: set<Triplet>): (r: map<Triplet, T>) { map t | t in m && t in ts :: m[t] }

  /** What a record does in recovery: removal at once; a refusal is ignored; None where it throws. */
  function Replayed(w: Stored, c: Change): (r: Option<Stored>) {
    match c
    case CreateVertexType(l, v) =>
      if l in w.s.valid then Some(w) else Some(w.(s := w.s.(valid := w.s.valid + {l}), cols := w.cols[l := v]))
    case CreateEdgeType(t, v) =>
      if !Ends(w.s, t) || t in w.s.triplets then Some(w)
      else Some(w.(s := w.s.(triplets := w.s.triplets + {t}), tabs := w.tabs[t := NewEdges(v)]))
    case DropVertexType(l) =>
      var s := RemoveVertexType(w.s, l); Some(Stored(s, w.cols - {l}, Only(w.tabs, s.triplets)))
    case DropEdgeType(t) => Some(w.(s := RemoveEdgeTypes(w.s, {t}), tabs := w.tabs - {t}))
    case OnColumns(l, op) =>
      if l !in w.cols then Some(w) else Some(w.(cols := w.cols[l := D.ReplayStep(w.cols[l], op)]))
    case OnEdges(t, c) =>
      if t !in w.tabs then None
      else match E.Replayed(w.tabs[t], c) case None => None case Some(k) => Some(w.(tabs := w.tabs[t := k]))
  }

  function ReplayOf(x: Session, w: Stored, c: Change): (r: Option<Stored>) {
    if Logged(x, c) then Replayed(w, c) else Some(w)
  }

  // ------------------------------------------------------------------------------------
  // Commit
  // ------------------------------------------------------------------------------------

  function RemoveLabels(s: Types, order: seq<nat>): (r: Types) {
    if order == [] then s else RemoveVertexType(RemoveLabels(s, order[..|order| - 1]), order[|order| - 1])
  }

  /** Columns to be removed from an edge type whose vertex label is gone: the label has no name any more. */
  predicate Stuck(x: Session, s: Types) {
    exists t | t in s.triplets :: !Ends(s, t) && EdgesOf(x, t).cols.deleted != {}
  }

  /** In what order the sets give their elements. */
  datatype Orders = Orders(labels: seq<nat>, cols: map<nat, seq<string>>, edges: map<Triplet, seq<string>>)

  function TypesLeft(x: Session, o: Orders): (s: Types) {
    RemoveLabels(RemoveEdgeTypes(x.s, x.edges), o.labels)
  }

  /** Edge types, then vertex types one by one, then the columns of what is left; None where it throws. */
  function Commit(x: Session, o: Orders): (r: Option<Stored>) {
    var s := TypesLeft(x, o);
    if Stuck(x, s) then None
    else Some(Stored(s,
      map l | l in s.valid :: D.Commit(ColumnsOf(x, l), if l in o.cols then o.cols[l] else []),
      map t | t in s.triplets :: E.Commit(EdgesOf(x, t), if t in o.edges then o.edges[t] else [])))
  }

  /** The sets may give their elements in any order. */
  ghost predicate Listed(x: Session, o: Orders) {
    && (forall l :: l in o.labels <==> l in x.labels)
    && (forall l | l in x.s.valid :: l in o.cols && D.Listing(o.cols[l], ColumnsOf(x, l).deleted))
    && (forall t | t in x.s.triplets :: t in o.edges && D.Listing(o.edges[t], EdgesOf(x, t).cols.deleted))
  }

  /** The same types and columns, and every edge type shows the same edges. */
  ghost predicate Same(a: Stored, b: Stored) {
    && a.s == b.s && a.cols == b.cols && a.tabs.Keys == b.tabs.Keys
    && forall t | t in a.tabs && t in b.tabs :: E.Same(a.tabs[t], b.tabs[t])
  }

  ghost predicate Agree(x: Session, w: Option<Stored>) {
    w.Some? && forall o | Listed(x, o) :: Commit(x, o).Some? && Same(Commit(x, o).value, w.value)
  }

  /** Triplets join valid labels, except that a label dropped earlier keeps the triplets to itself. */
  predicate Ok(s: Types) { s.soft <= s.triplets && forall t | t in s.triplets :: Whole(s, t) }

  predicate Whole(s: Types, t: Triplet) { t.src == t.dst || Ends(s, t) }

  /** Recovery is where the transaction is, without what is to be removed. */
  ghost predicate Tracks(x: Session, w: Stored) {
    && TypesTrack(x, w.s) && ColumnsTrack(x.cols, w.cols) && w.cols.Keys == w.s.valid
    && EdgesTrack(x.tabs, w.tabs) && w.tabs.Keys == w.s.triplets && !Stuck(x, w.s)
  }

  ghost predicate TypesTrack(x: Session, s: Types) {
    && Ok(s) && s.valid == x.s.valid && s.soft == {} && x.s.soft <= x.edges
    && s.triplets == x.s.triplets - x.edges && x.edges <= x.s.triplets && x.labels !! x.s.valid
    && forall t | t in x.edges :: Gone(x, t)
  }

  ghost predicate ColumnsTrack(a: map<nat, D.Deferred>, b: map<nat, VType>) {
    forall l | l in b :: l in a && Followed(a[l], b[l])
  }

  ghost predicate EdgesTrack(a: map<Triplet, E.Edges>, b: map<Triplet, E.Kept>) {
    forall t | t in b :: t in a && E.Tracks(a[t], b[t])
  }

  /** A triplet to be removed was dropped itself, or one of its ends was. */
  predicate Gone(x: Session, t: Triplet) {
    && t.src in x.s.valid + x.labels && t.dst in x.s.valid + x.labels
    && (Ends(x.s, t) ==> t in x.s.soft)
  }

  // ------------------------------------------------------------------------------------
  // Commit from a tracked state
  // ------------------------------------------------------------------------------------

  /** Once its triplets are gone, removing a dropped label changes nothing. */
  lemma {:induction false} LabelsGone(s: Types, labels: set<nat>, order: seq<nat>)
    requires Ok(s) && labels !! s.valid && forall i | 0 <= i < |order| :: order[i] in labels
    ensures RemoveLabels(s, order) == s
  {
    if order != [] {
      LabelsGone(s, labels, order[..|order| - 1]);
      var l := order[|order| - 1];
      assert s.valid - {l} == s.valid;
      forall t | t in s.triplets ensures t !in Incident(s, l) { assert Whole(s, t); }
      assert Incident(s, l) == {};
    }
  }

  lemma TypesCommit(x: Session, s: Types, o: Orders)
    requires TypesTrack(x, s) && forall l | l in o.labels :: l in x.labels
    ensures TypesLeft(x, o) == s
  {
    assert RemoveEdgeTypes(x.s, x.edges) == s;
    LabelsGone(s, x.labels, o.labels);
  }

  lemma TracksAgree(x: Session, w: Stored)
    requires Tracks(x, w)
    ensures Agree(x, Some(w))
  {
    forall o | Listed(x, o) ensures Commit(x, o).Some? && Same(Commit(x, o).value, w) { CommitIs(x, w, o); }
  }

  lemma CommitIs(x: Session, w: Stored, o: Orders)
    requires Tracks(x, w) && Listed(x, o)
    ensures Commit(x, o).Some? && Same(Commit(x, o).value, w)
  {
    TypesCommit(x, w.s, o);
    forall l | l in w.s.valid ensures D.Commit(ColumnsOf(x, l), o.cols[l]) == w.cols[l] {
      FollowedCommit(x.cols[l], w.cols[l], o.cols[l]);
    }
    assert Commit(x, o).value.cols == w.cols;
    forall t | t in w.s.triplets ensures E.Same(E.Commit(EdgesOf(x, t), o.edges[t]), w.tabs[t]) {
      E.TracksAgree(x.tabs[t], w.tabs[t]);
    }
  }

  // ------------------------------------------------------------------------------------
  // One change
  // ------------------------------------------------------------------------------------

  /**
   * The change does not reuse what is to be removed, leaves no columns to be removed behind a label
   * that goes, and is one that recovery repeats in the edge type.
   */
  predicate StepOk(x: Session, w: Stored, c: Change)
    requires Proper(x, c)
  {
    match c
    case CreateVertexType(l, _) => l !in x.labels
    case CreateEdgeType(t, _) => Ends(x.s, t) ==> t !in x.edges
    case DropVertexType(l) => l in x.s.valid ==> LoopsClear(x, l)
    case DropEdgeType(_) => true
    case OnColumns(l, op) => l in x.s.valid ==> DeferralExact.StepOk(ColumnsOf(x, l), op)
    case OnEdges(t, c) => Exists(x.s, t) ==> t in w.tabs && E.StepOk(EdgesOf(x, t), w.tabs[t], c)
  }

  /** No columns to be removed from the edge types that join the label to itself. */
  predicate LoopsClear(x: Session, l: nat) {
    forall t | t in x.s.triplets && t !in x.edges && t.src == l && t.dst == l :: EdgesOf(x, t).cols.deleted == {}
  }

  /** What the changes themselves bring: a new type starts with live columns in order; offsets name one edge. */
  ghost predicate Proper(x: Session, c: Change) {
    match c
    case CreateVertexType(_, v) => Valid(v) && D.AllLive(v.cols)
    case CreateEdgeType(_, v) => Valid(v) && D.AllLive(v.cols)
    case OnEdges(t, c) => Exists(x.s, t) ==> E.Proper(EdgesOf(x, t), c)
    case _ => true
  }

  lemma CreateVertexTypes(x: Session, s: Types, l: nat, v: VType)
    requires TypesTrack(x, s) && l !in x.labels && l !in x.s.valid
    ensures TypesTrack(Live(x, CreateVertexType(l, v)), s.(valid := s.valid + {l}))
  {
    var y, z := Live(x, CreateVertexType(l, v)), s.(valid := s.valid + {l});
    forall t | t in z.triplets ensures Whole(z, t) { assert Whole(s, t); }
    forall t | t in y.edges ensures Gone(y, t) { assert Gone(x, t); }
  }

  lemma ColumnsAdded(x: Session, w: Stored, l: nat, d: D.Deferred, v: VType, y: Session, z: Stored)
    requires Tracks(x, w) && l !in x.s.valid && Followed(d, v)
    requires y == x.(s := x.s.(valid := x.s.valid + {l}), cols := x.cols[l := d])
    requires z == w.(s := w.s.(valid := w.s.valid + {l}), cols := w.cols[l := v]) && TypesTrack(y, z.s)
    ensures Tracks(y, z)
  {
    NotStuck(x, w.s, y, z.s);
  }

  lemma CreateVertexKeeps(x: Session, w: Stored, l: nat, v: VType)
    requires Tracks(x, w) && l !in x.labels && l !in x.s.valid && Valid(v) && D.AllLive(v.cols)
    ensures var r := ReplayOf(x, w, CreateVertexType(l, v)); r.Some? && Tracks(Live(x, CreateVertexType(l, v)), r.value)
  {
    CreateVertexTypes(x, w.s, l, v);
    FollowedStart(v);
    ColumnsAdded(x, w, l, D.Deferred(v, {}), v, Live(x, CreateVertexType(l, v)),
      ReplayOf(x, w, CreateVertexType(l, v)).value);
  }

  /** Columns are stuck only where they were, or where an end went. */
  lemma NotStuck(x: Session, s: Types, y: Session, s': Types)
    requires !Stuck(x, s)
    requires forall t | t in s'.triplets && !Ends(s', t) && EdgesOf(y, t).cols.deleted != {} ::
      t in s.triplets && !Ends(s, t) && EdgesOf(x, t).cols.deleted != {}
    ensures !Stuck(y, s')
  {
  }

  lemma CreateEdgeTypes(x: Session, s: Types, t: Triplet, v: VType)
    requires TypesTrack(x, s) && Ends(x.s, t) && t !in x.s.triplets
    ensures TypesTrack(Live(x, CreateEdgeType(t, v)), s.(triplets := s.triplets + {t}))
  {
    var y, z := Live(x, CreateEdgeType(t, v)), s.(triplets := s.triplets + {t});
    forall k | k in z.triplets ensures Whole(z, k) { assert k != t ==> Whole(s, k); }
    forall k | k in y.edges ensures Gone(y, k) { assert Gone(x, k); }
    assert s.triplets + {t} == y.s.triplets - y.edges;
  }

  lemma NewEdgesTrack(v: VType)
    requires Valid(v) && D.AllLive(v.cols)
    ensures E.Tracks(E.Begin(NewEdges(v)), NewEdges(v))
  {
    var t := NewEdges(v).tab;
    forall u: nat, z: nat, d: int ensures R.Seen(A.List(t.out, u), z, d) == R.Seen(A.List(t.inc, z), u, d) { }
    E.BeginTracks(NewEdges(v));
  }

  lemma EdgesAdded(x: Session, w: Stored, t: Triplet, e: E.Edges, k: E.Kept, y: Session, z: Stored)
    requires Tracks(x, w) && Ends(x.s, t) && t !in x.s.triplets && E.Tracks(e, k)
    requires y == x.(s := x.s.(triplets := x.s.triplets + {t}), tabs := x.tabs[t := e])
    requires z == w.(s := w.s.(triplets := w.s.triplets + {t}), tabs := w.tabs[t := k]) && TypesTrack(y, z.s)
    ensures Tracks(y, z)
  {
    NotStuck(x, w.s, y, z.s);
  }

  lemma CreateEdgeKeeps(x: Session, w: Stored, t: Triplet, v: VType)
    requires Tracks(x, w) && Ends(x.s, t) && t !in x.s.triplets && Valid(v) && D.AllLive(v.cols)
    ensures var r := ReplayOf(x, w, CreateEdgeType(t, v)); r.Some? && Tracks(Live(x, CreateEdgeType(t, v)), r.value)
  {
    var y, z := Live(x, CreateEdgeType(t, v)), ReplayOf(x, w, CreateEdgeType(t, v)).value;
    CreateEdgeTypes(x, w.s, t, v);
    NewEdgesTrack(v);
    EdgesAdded(x, w, t, E.Begin(NewEdges(v)), NewEdges(v), y, z);
  }

  lemma DropVertexTypes(x: Session, s: Types, l: nat)
    requires TypesTrack(x, s) && l in x.s.valid
    ensures TypesTrack(Live(x, DropVertexType(l)), RemoveVertexType(s, l))
  {
    var y, z := Live(x, DropVertexType(l)), RemoveVertexType(s, l);
    var a, b := x.s.(valid := x.s.valid - {l}), s.(valid := s.valid - {l});
    assert Incident(b, l) == Incident(a, l) - x.edges;
    SetsAgree(x.s.triplets, x.edges, Incident(a, l), Incident(b, l));
    forall t | t in z.triplets ensures Whole(z, t) { assert Whole(s, t); }
    forall t | t in y.edges ensures Gone(y, t) { assert t in x.edges ==> Gone(x, t); }
  }

  /** Of the triplets of a label that goes, those to itself are left. */
  lemma LoopsLeft(x: Session, s: Types, l: nat, t: Triplet)
    requires TypesTrack(x, s) && l in x.s.valid && t in RemoveVertexType(s, l).triplets
    requires !Ends(RemoveVertexType(s, l), t)
    ensures t in s.triplets && t in x.s.triplets && t !in x.edges && (Ends(s, t) ==> t.src == l && t.dst == l)
  {
    assert Whole(s, t);
    assert t !in Incident(s.(valid := s.valid - {l}), l);
  }

  lemma DropVertexKeeps(x: Session, w: Stored, l: nat)
    requires Tracks(x, w) && l in x.s.valid && LoopsClear(x, l)
    ensures var r := ReplayOf(x, w, DropVertexType(l)); r.Some? && Tracks(Live(x, DropVertexType(l)), r.value)
  {
    var y, z := Live(x, DropVertexType(l)), ReplayOf(x, w, DropVertexType(l)).value;
    DropVertexTypes(x, w.s, l);
    assert z.tabs.Keys == z.s.triplets;
    forall t | t in z.s.triplets && !Ends(z.s, t) && EdgesOf(y, t).cols.deleted != {}
      ensures t in w.s.triplets && !Ends(w.s, t) && EdgesOf(x, t).cols.deleted != {}
    {
      LoopsLeft(x, w.s, l, t);
    }
    NotStuck(x, w.s, y, z.s);
  }

  lemma SetsAgree(all_: set<Triplet>, gone: set<Triplet>, a: set<Triplet>, b: set<Triplet>)
    requires b == a - gone
    ensures (all_ - gone) - b == all_ - (gone + a)
  {
  }

  lemma DropEdgeTypes(x: Session, s: Types, t: Triplet)
    requires TypesTrack(x, s) && Exists(x.s, t)
    ensures TypesTrack(Live(x, DropEdgeType(t)), RemoveEdgeTypes(s, {t}))
  {
    var y, z := Live(x, DropEdgeType(t)), RemoveEdgeTypes(s, {t});
    SetsAgree(x.s.triplets, x.edges, {t}, {t} - x.edges);
    assert s.triplets - {t} == s.triplets - ({t} - x.edges);
    forall k | k in z.triplets ensures Whole(z, k) { assert Whole(s, k); }
    forall k | k in y.edges ensures Gone(y, k) { assert k in x.edges ==> Gone(x, k); }
  }

  lemma DropEdgeKeeps(x: Session, w: Stored, t: Triplet)
    requires Tracks(x, w) && Exists(x.s, t)
    ensures var r := ReplayOf(x, w, DropEdgeType(t)); r.Some? && Tracks(Live(x, DropEdgeType(t)), r.value)
  {
    var y, z := Live(x, DropEdgeType(t)), ReplayOf(x, w, DropEdgeType(t)).value;
    DropEdgeTypes(x, w.s, t);
    NotStuck(x, w.s, y, z.s);
  }

  lemma SameTypes(x: Session, s: Types, y: Session)
    requires TypesTrack(x, s) && y.s == x.s && y.labels == x.labels && y.edges == x.edges
    ensures TypesTrack(y, s)
  {
    forall t | t in y.edges ensures Gone(y, t) { assert Gone(x, t); }
  }

  /** The columns of one label replaced by others that go together. */
  lemma ColumnsSwapped(x: Session, w: Stored, l: nat, d: D.Deferred, v: VType)
    requires Tracks(x, w) && l in w.cols && Followed(d, v)
    ensures Tracks(x.(cols := x.cols[l := d]), w.(cols := w.cols[l := v]))
  {
    var y, z := x.(cols := x.cols[l := d]), w.(cols := w.cols[l := v]);
    SameTypes(x, w.s, y);
    assert z.cols.Keys == w.cols.Keys;
    NotStuck(x, w.s, y, z.s);
  }

  lemma ColumnsReplayed(x: Session, w: Stored, l: nat, op: Op)
    requires l in x.s.valid && l in x.cols && l in w.cols
    ensures Live(x, OnColumns(l, op)) == x.(cols := x.cols[l := D.LiveStep(x.cols[l], op)])
    ensures ReplayOf(x, w, OnColumns(l, op))
            == Some(w.(cols := w.cols[l := DeferralExact.ReplayOf(x.cols[l], w.cols[l], op)]))
  {
    assert w.cols[l := w.cols[l]] == w.cols;
  }

  lemma ColumnsKeep(x: Session, w: Stored, l: nat, op: Op)
    requires Tracks(x, w) && l in x.s.valid && DeferralExact.StepOk(ColumnsOf(x, l), op)
    ensures var r := ReplayOf(x, w, OnColumns(l, op)); r.Some? && Tracks(Live(x, OnColumns(l, op)), r.value)
  {
    FollowedStep(x.cols[l], w.cols[l], op);
    ColumnsReplayed(x, w, l, op);
    ColumnsSwapped(x, w, l, D.LiveStep(x.cols[l], op), DeferralExact.ReplayOf(x.cols[l], w.cols[l], op));
  }

  /** An edge type that can be changed is there in recovery. */
  lemma ExistsThere(x: Session, w: Stored, t: Triplet)
    requires Tracks(x, w) && Exists(x.s, t)
    ensures t in w.tabs && t in x.tabs && Ends(w.s, t) && E.Tracks(x.tabs[t], w.tabs[t])
  {
    assert t in x.edges ==> Gone(x, t);
  }

  lemma EdgesReplayed(x: Session, w: Stored, t: Triplet, c: E.Change, e: E.Edges, k: Option<E.Kept>)
    requires Exists(x.s, t) && t in w.tabs && t in x.tabs
    requires e == E.Live(x.tabs[t], c) && k == E.ReplayOf(x.tabs[t], w.tabs[t], c)
    ensures Live(x, OnEdges(t, c)) == x.(tabs := x.tabs[t := e])
    ensures ReplayOf(x, w, OnEdges(t, c)) == if k.None? then None else Some(w.(tabs := w.tabs[t := k.value]))
  {
    assert w.tabs[t := w.tabs[t]] == w.tabs;
  }

  lemma SwappedTracks(a: map<Triplet, E.Edges>, b: map<Triplet, E.Kept>, t: Triplet, e: E.Edges, k: E.Kept)
    requires EdgesTrack(a, b) && t in b && E.Tracks(e, k)
    ensures EdgesTrack(a[t := e], b[t := k]) && b[t := k].Keys == b.Keys
  {
  }

  lemma SwappedFree(x: Session, s: Types, t: Triplet, e: E.Edges)
    requires !Stuck(x, s) && Ends(s, t)
    ensures !Stuck(x.(tabs := x.tabs[t := e]), s)
  {
    NotStuck(x, s, x.(tabs := x.tabs[t := e]), s);
  }

  /** One edge type of either replaced by others that go together. */
  lemma EdgesSwapped(x: Session, w: Stored, t: Triplet, e: E.Edges, k: E.Kept)
    requires Tracks(x, w) && t in w.tabs && Ends(w.s, t) && E.Tracks(e, k)
    ensures Tracks(x.(tabs := x.tabs[t := e]), w.(tabs := w.tabs[t := k]))
  {
    SameTypes(x, w.s, x.(tabs := x.tabs[t := e]));
    SwappedTracks(x.tabs, w.tabs, t, e, k);
    SwappedFree(x, w.s, t, e);
  }

  lemma EdgesFollow(x: Session, w: Stored, t: Triplet, y: Session, z: Stored, e: E.Edges, k: E.Kept)
    requires Tracks(x, w) && t in w.tabs && Ends(w.s, t) && E.Tracks(e, k)
    requires y == x.(tabs := x.tabs[t := e]) && z == w.(tabs := w.tabs[t := k])
    ensures Tracks(y, z)
  {
    EdgesSwapped(x, w, t, e, k);
  }

  lemma EdgesKeep(x: Session, w: Stored, t: Triplet, c: E.Change, e: E.Edges, k: Option<E.Kept>)
    requires Tracks(x, w) && Exists(x.s, t) && t in w.tabs && t in x.tabs && Ends(w.s, t)
    requires e == E.Live(x.tabs[t], c) && k == E.ReplayOf(x.tabs[t], w.tabs[t], c) && k.Some? && E.Tracks(e, k.value)
    ensures var r := ReplayOf(x, w, OnEdges(t, c)); r.Some? && Tracks(Live(x, OnEdges(t, c)), r.value)
  {
    EdgesReplayed(x, w, t, c, e, k);
    EdgesFollow(x, w, t, Live(x, OnEdges(t, c)), ReplayOf(x, w, OnEdges(t, c)).value, e, k.value);
  }

  lemma ChangeKeeps(x: Session, w: Stored, c: Change)
    requires Tracks(x, w) && Proper(x, c) && StepOk(x, w, c)
    ensures ReplayOf(x, w, c).Some? && Tracks(Live(x, c), ReplayOf(x, w, c).value)
  {
    match c
    case CreateVertexType(l, v) => if l !in x.s.valid { CreateVertexKeeps(x, w, l, v); }
    case CreateEdgeType(t, v) =>
      if Ends(x.s, t) && t !in x.s.triplets { CreateEdgeKeeps(x, w, t, v); }
    case DropVertexType(l) => if l in x.s.valid { DropVertexKeeps(x, w, l); }
    case DropEdgeType(t) => if Exists(x.s, t) { DropEdgeKeeps(x, w, t); }
    case OnColumns(l, op) => if l in x.s.valid { ColumnsKeep(x, w, l, op); }
    case OnEdges(t, e) =>
      if Exists(x.s, t) {
        ExistsThere(x, w, t);
        E.StepKeeps(x.tabs[t], w.tabs[t], e);
        EdgesKeep(x, w, t, e, E.Live(x.tabs[t], e), E.ReplayOf(x.tabs[t], w.tabs[t], e));
      }
  }

  // ------------------------------------------------------------------------------------
  // Reuse
  // ------------------------------------------------------------------------------------

  lemma {:induction false} RemovedLabel(s: Types, order: seq<nat>, l: nat)
    ensures RemoveLabels(s, order).valid <= s.valid && RemoveLabels(s, order).triplets <= s.triplets
    ensures l in order ==> l !in RemoveLabels(s, order).valid
    ensures l !in order && l in s.valid ==> l in RemoveLabels(s, order).valid
  {
    if order != [] {
      RemovedLabel(s, order[..|order| - 1], l);
      assert order == order[..|order| - 1] + [order[|order| - 1]];
    }
  }

  /** A label dropped and created again is removed at commit; recovery keeps it. */
  lemma RecreatedLabel(x: Session, w: Stored, l: nat, v: VType, o: Orders)
    requires Tracks(x, w) && l in x.labels && Listed(Live(x, CreateVertexType(l, v)), o)
    ensures var r := ReplayOf(x, w, CreateVertexType(l, v)).value; TypesLeft(Live(x, CreateVertexType(l, v)), o) != r.s
  {
    var y := Live(x, CreateVertexType(l, v));
    RemovedLabel(RemoveEdgeTypes(y.s, y.edges), o.labels, l);
    assert l in o.labels;
  }

  /** An edge type dropped and created again: the record is written though the storage refuses. */
  lemma RecreatedEdgeType(x: Session, w: Stored, t: Triplet, v: VType, o: Orders)
    requires Tracks(x, w) && Ends(x.s, t) && t in x.edges
    ensures var r := ReplayOf(x, w, CreateEdgeType(t, v)).value; TypesLeft(Live(x, CreateEdgeType(t, v)), o) != r.s
  {
    var y := Live(x, CreateEdgeType(t, v));
    assert Gone(x, t);
    RemovedLabel(RemoveEdgeTypes(y.s, y.edges), o.labels, 0);
  }

  /** Columns to be removed from an edge type that joins a label to itself, and the label dropped: commit throws. */
  lemma LoopStuck(x: Session, w: Stored, l: nat, o: Orders)
    requires Tracks(x, w) && l in x.s.valid && !LoopsClear(x, l) && Listed(Live(x, DropVertexType(l)), o)
    ensures Commit(Live(x, DropVertexType(l)), o).None?
  {
    var y := Live(x, DropVertexType(l));
    var t :| t in x.s.triplets && t !in x.edges && t.src == l && t.dst == l && EdgesOf(x, t).cols.deleted != {};
    DropVertexTypes(x, w.s, l);
    TypesCommit(y, RemoveVertexType(w.s, l), o);
    LoopStays(x, w.s, l, t);
  }

  lemma LoopStays(x: Session, s: Types, l: nat, t: Triplet)
    requires TypesTrack(x, s) && l in x.s.valid && t in x.s.triplets && t !in x.edges && t.src == l && t.dst == l
    requires EdgesOf(x, t).cols.deleted != {}
    ensures Stuck(Live(x, DropVertexType(l)), RemoveVertexType(s, l))
  {
    assert t in RemoveVertexType(s, l).triplets && EdgesOf(Live(x, DropVertexType(l)), t) == EdgesOf(x, t);
  }

  lemma ColumnsBreak(x: Session, w: Stored, l: nat, op: Op, o: Orders)
    requires Tracks(x, w) && l in x.s.valid && !DeferralExact.StepOk(ColumnsOf(x, l), op)
    requires Listed(Live(x, OnColumns(l, op)), o)
    ensures !Agree(Live(x, OnColumns(l, op)), ReplayOf(x, w, OnColumns(l, op)))
  {
    ColumnsReplayed(x, w, l, op);
    var y, z := Live(x, OnColumns(l, op)), ReplayOf(x, w, OnColumns(l, op)).value;
    FollowedBreaks(x.cols[l], w.cols[l], op, o.cols[l]);
    SameTypes(x, w.s, y);
    TypesCommit(y, w.s, o);
    OtherColumns(y, z, o, l);
  }

  lemma OtherColumns(y: Session, z: Stored, o: Orders, l: nat)
    requires TypesLeft(y, o) == z.s && l in z.s.valid && l in z.cols && l in o.cols && Listed(y, o)
    requires D.Commit(ColumnsOf(y, l), o.cols[l]) != z.cols[l]
    ensures !Agree(y, Some(z))
  {
    var k := Commit(y, o);
    if k.Some? { assert k.value.cols[l] == D.Commit(ColumnsOf(y, l), o.cols[l]); }
  }

  /** The edge type comes out otherwise than in recovery, in the order where it does. */
  lemma EdgesDiffer(x: Session, w: Stored, t: Triplet, e: E.Edges, k: E.Kept, o: Orders)
    requires Tracks(x, w) && t in w.tabs && !E.Agree(e, Some(k)) && Listed(x.(tabs := x.tabs[t := e]), o)
    ensures !Agree(x.(tabs := x.tabs[t := e]), Some(w.(tabs := w.tabs[t := k])))
  {
    var y, z := x.(tabs := x.tabs[t := e]), w.(tabs := w.tabs[t := k]);
    var n :| D.Listing(n, e.cols.deleted) && !E.Same(E.Commit(e, n), k);
    var p := o.(edges := o.edges[t := n]);
    assert Listed(y, p);
    SameTypes(x, w.s, y);
    TypesCommit(y, w.s, p);
    OtherEdges(y, z, p, t);
  }

  lemma EdgesBreak(x: Session, w: Stored, t: Triplet, c: E.Change, e: E.Edges, k: Option<E.Kept>, o: Orders)
    requires Tracks(x, w) && Exists(x.s, t) && t in w.tabs && t in x.tabs
    requires e == E.Live(x.tabs[t], c) && k == E.ReplayOf(x.tabs[t], w.tabs[t], c) && !E.Agree(e, k)
    requires Listed(Live(x, OnEdges(t, c)), o)
    ensures !Agree(Live(x, OnEdges(t, c)), ReplayOf(x, w, OnEdges(t, c)))
  {
    EdgesReplayed(x, w, t, c, e, k);
    if k.Some? { EdgesDiffer(x, w, t, e, k.value, o); }
  }

  lemma OtherEdges(y: Session, z: Stored, p: Orders, t: Triplet)
    requires TypesLeft(y, p) == z.s && t in z.s.triplets && t in z.tabs && t in p.edges && Listed(y, p)
    requires !E.Same(E.Commit(EdgesOf(y, t), p.edges[t]), z.tabs[t])
    ensures !Agree(y, Some(z))
  {
    var k := Commit(y, p);
    if k.Some? { assert k.value.tabs[t] == E.Commit(EdgesOf(y, t), p.edges[t]); }
  }

  lemma ChangeBreaks(x: Session, w: Stored, c: Change, o: Orders)
    requires Tracks(x, w) && Proper(x, c) && !StepOk(x, w, c) && Listed(Live(x, c), o)
    ensures !Agree(Live(x, c), ReplayOf(x, w, c))
  {
    match c
    case CreateVertexType(l, v) => RecreatedLabel(x, w, l, v, o);
    case CreateEdgeType(t, v) => RecreatedEdgeType(x, w, t, v, o);
    case DropVertexType(l) => LoopStuck(x, w, l, o);
    case OnColumns(l, op) => ColumnsBreak(x, w, l, op, o);
    case OnEdges(t, e) =>
      ExistsThere(x, w, t);
      E.StepExact(x.tabs[t], w.tabs[t], e);
      EdgesBreak(x, w, t, e, E.Live(x.tabs[t], e), E.ReplayOf(x.tabs[t], w.tabs[t], e), o);
  }

  lemma {:induction false} SomeLabels(labels: set<nat>) returns (order: seq<nat>)
    ensures forall l :: l in order <==> l in labels
  {
    if labels == {} {
      order := [];
    } else {
      var l :| l in labels;
      order := SomeLabels(labels - {l});
      order := order + [l];
    }
  }

  lemma {:induction false} SomeColumns(x: Session, labels: set<nat>) returns (orders: map<nat, seq<string>>)
    ensures forall l | l in labels :: l in orders && D.Listing(orders[l], ColumnsOf(x, l).deleted)
  {
    if labels == {} {
      orders := map[];
    } else {
      var l :| l in labels;
      orders := SomeColumns(x, labels - {l});
      var o := SomeOrder(ColumnsOf(x, l).deleted);
      orders := orders[l := o];
    }
  }

  lemma {:induction false} SomeEdges(x: Session, ts: set<Triplet>) returns (orders: map<Triplet, seq<string>>)
    ensures forall t | t in ts :: t in orders && D.Listing(orders[t], EdgesOf(x, t).cols.deleted)
  {
    if ts == {} {
      orders := map[];
    } else {
      var t :| t in ts;
      orders := SomeEdges(x, ts - {t});
      var o := SomeOrder(EdgesOf(x, t).cols.deleted);
      orders := orders[t := o];
    }
  }

  lemma SomeOrders(x: Session) returns (o: Orders)
    ensures Listed(x, o)
  {
    var labels := SomeLabels(x.labels);
    var cols := SomeColumns(x, x.s.valid);
    var edges := SomeEdges(x, x.s.triplets);
    o := Orders(labels, cols, edges);
  }

  /** One change: commit would give what recovery would exactly if it is one that recovery repeats. */
  lemma ChangeExact(x: Session, w: Stored, c: Change)
    requires Tracks(x, w) && Proper(x, c)
    ensures Agree(Live(x, c), ReplayOf(x, w, c)) <==> StepOk(x, w, c)
  {
    if StepOk(x, w, c) {
      ChangeKeeps(x, w, c);
      TracksAgree(Live(x, c), ReplayOf(x, w, c).value);
    } else {
      var o := SomeOrders(Live(x, c));
      ChangeBreaks(x, w, c, o);
    }
  }

  // ------------------------------------------------------------------------------------
  // Whole transactions
  // ------------------------------------------------------------------------------------

  /** A stored graph: nothing soft-deleted, every valid label with its columns, every triplet with its edges. */
  ghost predicate Settled(w: Stored) {
    && Ok(w.s) && w.s.soft == {} && w.cols.Keys == w.s.valid && w.tabs.Keys == w.s.triplets
    && (forall l | l in w.cols :: Valid(w.cols[l]) && D.AllLive(w.cols[l].cols))
    && forall t | t in w.tabs :: E.Settled(w.tabs[t])
  }

  function Begin(w: Stored): (x: Session) {
    Session(w.s, {}, {}, map l | l in w.cols :: D.Deferred(w.cols[l], {}), map t | t in w.tabs :: E.Begin(w.tabs[t]))
  }

  lemma BeginTracks(w: Stored)
    requires Settled(w)
    ensures Tracks(Begin(w), w)
  {
    forall l | l in w.cols ensures Followed(Begin(w).cols[l], w.cols[l]) { FollowedStart(w.cols[l]); }
    forall t | t in w.tabs ensures E.Tracks(Begin(w).tabs[t], w.tabs[t]) { E.BeginTracks(w.tabs[t]); }
  }

  function LiveAfter(x: Session, cs: seq<Change>, k: nat): (y: Session)
    requires k <= |cs|
  {
    if k == 0 then x else Live(LiveAfter(x, cs, k - 1), cs[k - 1])
  }

  function ReplayAfter(x: Session, w: Stored, cs: seq<Change>, k: nat): (r: Option<Stored>)
    requires k <= |cs|
  {
    if k == 0 then Some(w)
    else match ReplayAfter(x, w, cs, k - 1)
      case None => None
      case Some(v) => ReplayOf(LiveAfter(x, cs, k - 1), v, cs[k - 1])
  }

  ghost predicate AgreeAt(x: Session, w: Stored, cs: seq<Change>, k: nat)
    requires k <= |cs|
  {
    Agree(LiveAfter(x, cs, k), ReplayAfter(x, w, cs, k))
  }

  ghost predicate ProperAt(x: Session, cs: seq<Change>, k: nat)
    requires k < |cs|
  {
    Proper(LiveAfter(x, cs, k), cs[k])
  }

  ghost predicate OkAt(x: Session, w: Stored, cs: seq<Change>, k: nat)
    requires k < |cs|
  {
    && ProperAt(x, cs, k) && ReplayAfter(x, w, cs, k).Some?
    && StepOk(LiveAfter(x, cs, k), ReplayAfter(x, w, cs, k).value, cs[k])
  }

  ghost predicate AllProper(x: Session, cs: seq<Change>) { forall k: nat | k < |cs| :: ProperAt(x, cs, k) }

  ghost predicate TracksAt(x: Session, w: Stored, cs: seq<Change>, k: nat)
    requires k <= |cs|
  {
    ReplayAfter(x, w, cs, k).Some? && Tracks(LiveAfter(x, cs, k), ReplayAfter(x, w, cs, k).value)
  }

  lemma NextTracks(x: Session, w: Stored, cs: seq<Change>, k: nat)
    requires k < |cs| && TracksAt(x, w, cs, k) && OkAt(x, w, cs, k)
    ensures TracksAt(x, w, cs, k + 1)
  {
    ChangeKeeps(LiveAfter(x, cs, k), ReplayAfter(x, w, cs, k).value, cs[k]);
  }

  lemma AfterTracks(x: Session, w: Stored, cs: seq<Change>, k: nat)
    requires TracksAt(x, w, cs, 0) && k <= |cs| && forall i: nat | i < k :: OkAt(x, w, cs, i)
    ensures TracksAt(x, w, cs, k)
  {
    for n := 0 to k
      invariant TracksAt(x, w, cs, n)
    {
      assert OkAt(x, w, cs, n);
      NextTracks(x, w, cs, n);
    }
  }

  lemma NextAgrees(x: Session, w: Stored, cs: seq<Change>, k: nat)
    requires k < |cs| && TracksAt(x, w, cs, k) && ProperAt(x, cs, k)
    ensures AgreeAt(x, w, cs, k + 1) <==> OkAt(x, w, cs, k)
  {
    ChangeExact(LiveAfter(x, cs, k), ReplayAfter(x, w, cs, k).value, cs[k]);
  }

  lemma AgreeNext(x: Session, w: Stored, cs: seq<Change>, k: nat)
    requires TracksAt(x, w, cs, 0) && AllProper(x, cs) && k < |cs| && forall i: nat | i < k :: OkAt(x, w, cs, i)
    ensures AgreeAt(x, w, cs, k + 1) <==> OkAt(x, w, cs, k)
  {
    AfterTracks(x, w, cs, k);
    assert ProperAt(x, cs, k);
    NextAgrees(x, w, cs, k);
  }

  /**
   * Deferred removal is immediate removal, for types, vertex columns and edge types together:
   * wherever the transaction stops, commit gives what recovery gives, exactly if every change is one
   * that recovery repeats.
   */
  lemma DeferredExact(x: Session, w: Stored, cs: seq<Change>)
    requires Tracks(x, w) && AllProper(x, cs)
    ensures (forall k: nat | k <= |cs| :: AgreeAt(x, w, cs, k)) <==> (forall k: nat | k < |cs| :: OkAt(x, w, cs, k))
  {
    var agree := (k: nat) => k <= |cs| && AgreeAt(x, w, cs, k);
    var ok := (k: nat) => k < |cs| && OkAt(x, w, cs, k);
    TracksAgree(x, w);
    assert agree(0) && TracksAt(x, w, cs, 0);
    forall k: nat | k < |cs| && (forall i: nat | i < k :: ok(i)) ensures agree(k + 1) <==> ok(k) {
      forall i: nat | i < k ensures OkAt(x, w, cs, i) { assert ok(i); }
      AgreeNext(x, w, cs, k);
    }
    Stepwise(agree, ok, |cs|);
    assert forall k: nat | k < |cs| :: ok(k) <==> OkAt(x, w, cs, k);
    assert forall k: nat | k <= |cs| :: agree(k) <==> AgreeAt(x, w, cs, k);
  }
}
