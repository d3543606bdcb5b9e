/**
 * One edge type in an update transaction: its columns, with deletion deferred to commit, and its
 * adjacency lists, which adding and removing columns rebuilds.  The transaction rebuilds at commit,
 * recovery at the record, and the records in between address slots by offset.  Exactly when commit
 * and recovery give the same columns and show the same edges.
 */
module EdgeDeferral {
  import opened Wrappers
  import opened Columns
  import opened EdgeColumns
  import A = Adjacency
  import B = Database
  import D = Deferral
  import E = EdgeRecords
  import N = Renames
  import R = Rebuild
  import X = DeferralExact
  import opened Rows

  // ------------------------------------------------------------------------------------
  // Values
  // ------------------------------------------------------------------------------------

  /** The column is the one that its name removes. */
  predicate Hit(cols: seq<N.Col>, names: seq<string>, j: nat) {
    j < |cols| && cols[j].name in names && Find(cols, cols[j].name, false, 0) == Some(j)
  }

  function Cut(row: seq<int>, cols: seq<N.Col>, names: seq<string>): (r: seq<int>) {
    if row == [] then []
    else Cut(row[..|row| - 1], cols, names) + (if Hit(cols, names, |row| - 1) then [] else [row[|row| - 1]])
  }

  /** The values of the columns that are not deleted. */
  function Seen(row: seq<int>, cols: seq<N.Col>): (r: seq<int>)
    requires |row| == |cols|
  {
    if row == [] then []
    else Seen(row[..|row| - 1], cols[..|cols| - 1]) + (if cols[|cols| - 1].dead then [] else [row[|row| - 1]])
  }

  function PutAt(row: seq<int>, k: nat, value: int): (r: seq<int>) { if k < |row| then row[k := value] else row }

  function DeleteValues(t: A.Table, cols: seq<N.Col>, names: seq<string>): (r: A.Table) {
    E.RevalueBoth(d => Code(Cut(Row(d), cols, names)), t)
  }

  function AddValues(t: A.Table, news: seq<(string, N.Body)>): (r: A.Table) {
    E.RevalueBoth(d => Code(Row(d) + B.Defaults(news)), t)
  }

  /** What the storage takes of the values of a new edge: bundled the first, otherwise all or none. */
  function Taken(cols: seq<N.Col>, vals: seq<int>): (r: Option<seq<int>>)
    ensures r.Some? ==> |r.value| == |cols|
  {
    if |cols| == 0 then Some([])
    else if |cols| == 1 && !cols[0].body.varchar then if vals == [] then None else Some([vals[0]])
    else if |vals| == |cols| then Some(vals) else None
  }

  // ------------------------------------------------------------------------------------
  // The transaction and its replay
  // ------------------------------------------------------------------------------------

  datatype Change =
    | OnColumns(op: Op)
    | AddEdge(src: nat, dst: nat, vals: seq<int>, ts: nat)
    | RemoveEdge(e: A.Cap)
    | SetEdge(src: nat, dst: nat, oe: nat, ie: nat, col: nat, value: int)

  /** The transaction's edge type: slots carry the values of the columns that are not deleted. */
  datatype Edges = Edges(cols: D.Deferred, tab: A.Table)

  /** A committed or recovered edge type. */
  datatype Kept = Kept(v: VType, tab: A.Table)

  /** The columns really come. */
  predicate Adds(v: VType, news: seq<(string, N.Body)>) { news != [] && !Conflict(v, news) && !Stops(v, news) }

  function LiveTable(x: Edges, op: Op): (t: A.Table) {
    match op
    case Add(news, _) =>
      if !Adds(x.cols.v, news) || B.ExportFails(x.cols.v, news) then x.tab
      else if B.Bundled(x.cols.v) then R.Rebuild(AddValues(x.tab, news))
      else AddValues(x.tab, news)
    case Delete(names) =>
      if Do(x.cols.v, op).Some? then DeleteValues(x.tab, D.Alive(x.cols.v.cols), names) else x.tab
    case _ => x.tab
  }

  function ReplayTable(w: Kept, op: Op): (t: A.Table) {
    match op
    case Add(news, _) =>
      if !Adds(w.v, news) || B.ExportFails(w.v, news) then w.tab
      else if B.Bundled(w.v) then R.Rebuild(AddValues(w.tab, news))
      else AddValues(w.tab, news)
    case Delete(names) =>
      (match TryDrop(w.v, names)
       case None => w.tab
       case Some(v) =>
         var t := DeleteValues(w.tab, w.v.cols, names);
         if names != [] && B.Bundled(v) then R.Rebuild(t) else t)
    case _ => w.tab
  }

  function Valued(s: A.Slot, k: nat, value: int): (r: A.Slot) { s.(data := Code(PutAt(Row(s.data), k, value))) }

  /** Both sides of the edge, each by its rank among the visible slots. */
  function SetBoth(t: A.Table, src: nat, dst: nat, oe: nat, ie: nat, k: nat, value: int): (r: Option<A.Table>) {
    match (A.Nth(A.List(t.out, src), oe, 0), A.Nth(A.List(t.inc, dst), ie, 0))
    case (Some(o), Some(i)) =>
      Some(E.EditBoth(t, src, o, Valued(A.List(t.out, src)[o], k, value),
                         dst, i, Valued(A.List(t.inc, dst)[i], k, value)))
    case _ => None
  }

  /** The row of the outgoing slot, which both sides of the edge share; the other rank is not read. */
  function SetRow(t: A.Table, src: nat, oe: nat, k: nat, value: int): (r: Option<A.Table>) {
    match A.Nth(A.List(t.out, src), oe, 0)
    case None => None
    case Some(o) =>
      var s := A.List(t.out, src)[o];
      match E.FirstLike(A.List(t.inc, s.nbr), src, s.data, 0)
      case None => Some(t.(out := E.Edit(t.out, src, o, Valued(s, k, value))))
      case Some(i) =>
        Some(E.EditBoth(t, src, o, Valued(s, k, value), s.nbr, i, Valued(A.List(t.inc, s.nbr)[i], k, value)))
  }

  /** The check of the transaction before it writes the record. */
  predicate Settable(x: Edges, col: nat) { col < |x.cols.v.cols| && !x.cols.v.cols[col].dead }

  /** Where the column is among those that are not deleted. */
  function Place(x: Edges, col: nat): (k: nat)
    requires col < |x.cols.v.cols|
  {
    |D.Alive(x.cols.v.cols[..col])|
  }

  /** An exception leaves the lists as they were. */
  function Live(x: Edges, c: Change): (y: Edges) {
    match c
    case OnColumns(op) => Edges(LiveColumns(x.cols, op), LiveTable(x, op))
    case AddEdge(src, dst, vals, ts) =>
      (match Taken(x.cols.v.cols, vals)
       case None => x
       case Some(row) => x.(tab := A.PutEdge(x.tab, src, dst, Code(Seen(row, x.cols.v.cols)), ts)))
    case RemoveEdge(e) => (match A.DeleteEdge(x.tab, e) case None => x case Some(t) => x.(tab := t))
    case SetEdge(src, dst, oe, ie, col, value) =>
      if !Settable(x, col) then x
      else match SetBoth(x.tab, src, dst, oe, ie, Place(x, col), value) case None => x case Some(t) => x.(tab := t)
  }

  predicate Logged(x: Edges, c: Change) {
    match c
    case OnColumns(op) => LogsColumns(x.cols, op)
    case SetEdge(_, _, _, _, col, _) => Settable(x, col)
    case _ => true
  }

  function SetReplayed(w: Kept, src: nat, dst: nat, oe: nat, ie: nat, col: nat, value: int): (r: Option<A.Table>) {
    if B.Bundled(w.v) then SetBoth(w.tab, src, dst, oe, ie, 0, value)
    else if col < |w.v.cols| then SetRow(w.tab, src, oe, col, value)
    else None
  }

  /** None: recovery fails. */
  function Replayed(w: Kept, c: Change): (r: Option<Kept>) {
    match c
    case OnColumns(op) =>
      (match ReplayColumns(w.v, op) case None => None case Some(v) => Some(Kept(v, ReplayTable(w, op))))
    case AddEdge(src, dst, vals, ts) =>
      (match Taken(w.v.cols, vals)
       case None => None
       case Some(row) => Some(w.(tab := A.PutEdge(w.tab, src, dst, Code(row), ts))))
    case RemoveEdge(e) => (match A.DeleteEdge(w.tab, e) case None => None case Some(t) => Some(w.(tab := t)))
    case SetEdge(src, dst, oe, ie, col, value) =>
      (match SetReplayed(w, src, dst, oe, ie, col, value) case None => None case Some(t) => Some(w.(tab := t)))
  }

  function ReplayOf(x: Edges, w: Kept, c: Change): (r: Option<Kept>) {
    if Logged(x, c) then Replayed(w, c) else Some(w)
  }

  /** Commit removes the collected columns, and rebuilds if what is left fits into the slots. */
  function Commit(x: Edges, order: seq<string>): (r: Kept) {
    var v := D.Commit(x.cols, order);
    Kept(v, if x.cols.deleted != {} && TryDrop(x.cols.v, order).Some? && B.Bundled(v) then R.Rebuild(x.tab) else x.tab)
  }

  ghost predicate Same(a: Kept, b: Kept) { a.v == b.v && R.Shows(a.tab, b.tab) }

  ghost predicate Agree(x: Edges, w: Option<Kept>) {
    w.Some? && forall order | D.Listing(order, x.cols.deleted) :: Same(Commit(x, order), w.value)
  }

  /** Recovery follows the transaction. */
  ghost predicate Tracks(x: Edges, w: Kept) {
    X.Followed(x.cols, w.v) && R.Paired(x.tab) && R.Shows(x.tab, w.tab)
  }

  predicate Both(t: A.Table, e: A.Cap) { e.oe < |A.List(t.out, e.src)| && e.ie < |A.List(t.inc, e.dst)| }

  function OutSlot(t: A.Table, e: A.Cap): (s: A.Slot)
    requires Both(t, e)
  {
    A.List(t.out, e.src)[e.oe]
  }

  function InSlot(t: A.Table, e: A.Cap): (s: A.Slot)
    requires Both(t, e)
  {
    A.List(t.inc, e.dst)[e.ie]
  }

  /** A removal or a change names the two sides of one edge, or two slots that are both deleted. */
  predicate Proper(x: Edges, c: Change) {
    match c
    case RemoveEdge(e) => Both(x.tab, e) && E.Sides(e.src, e.dst, OutSlot(x.tab, e), InSlot(x.tab, e))
    case SetEdge(src, dst, oe, ie, _, _) =>
      var o, i := A.Nth(A.List(x.tab.out, src), oe, 0), A.Nth(A.List(x.tab.inc, dst), ie, 0);
      o.Some? && i.Some? && E.Sides(src, dst, A.List(x.tab.out, src)[o.value], A.List(x.tab.inc, dst)[i.value])
    case _ => true
  }

  // ------------------------------------------------------------------------------------
  // Commit from a tracked state
  // ------------------------------------------------------------------------------------

  lemma CommitShows(x: Edges, order: seq<string>)
    requires R.Paired(x.tab)
    ensures R.Shows(x.tab, Commit(x, order).tab)
  {
    R.ShowsRefl(x.tab);
    R.RebuildShows(x.tab, x.tab);
  }

  lemma TracksAgree(x: Edges, w: Kept)
    requires Tracks(x, w)
    ensures Agree(x, Some(w))
  {
    forall order | D.Listing(order, x.cols.deleted) ensures Same(Commit(x, order), w) {
      X.FollowedCommit(x.cols, w.v, order);
      CommitShows(x, order);
      E.ShowsTrans(x.tab, Commit(x, order).tab, w.tab);
    }
  }

  /** Other edges are seen than recovery shows. */
  lemma TableBreaks(x: Edges, w: Kept)
    requires R.Paired(x.tab) && !R.Shows(x.tab, w.tab)
    ensures !Agree(x, Some(w))
  {
    var order := X.SomeOrder(x.cols.deleted);
    CommitShows(x, order);
    if Same(Commit(x, order), w) {
      E.ShowsBack(x.tab, Commit(x, order).tab);
      E.ShowsTrans(Commit(x, order).tab, x.tab, w.tab);
    }
  }

  // ------------------------------------------------------------------------------------
  // One change
  // ------------------------------------------------------------------------------------

  /** The values fit the columns now, and those that are left when the deleted ones are gone. */
  predicate AddOk(x: Edges, vals: seq<int>) {
    var cols := x.cols.v.cols;
    var row := Taken(cols, vals);
    row.Some? && Taken(D.Alive(cols), vals) == Some(Seen(row.value, cols))
  }

  /** In recovery's lists the offsets name slots that show the same. */
  predicate RemoveOk(x: Edges, w: Kept, e: A.Cap)
    requires Proper(x, RemoveEdge(e))
  {
    && Both(w.tab, e)
    && E.Content(OutSlot(w.tab, e)) == E.Content(OutSlot(x.tab, e))
    && E.Content(InSlot(w.tab, e)) == E.Content(InSlot(x.tab, e))
  }

  /** The slot of that rank. */
  function Ranked(l: seq<A.Slot>, r: nat): (s: Option<A.Slot>)
    ensures s.Some? <==> A.Nth(l, r, 0).Some?
    ensures s.Some? ==> A.Live(s.value)
  {
    match A.Nth(l, r, 0) case None => None case Some(k) => Some(l[k])
  }

  /** The slot in recovery's list changes as the transaction's does. */
  predicate SameSet(s: A.Slot, k: nat, t: Option<A.Slot>, j: nat, value: int) {
    t.Some? && E.SameEdit(s, Valued(s, k, value), t.value, Valued(t.value, j, value))
  }

  /** In recovery's lists the ranks name slots that change in the same way. */
  predicate SetOk(x: Edges, w: Kept, c: Change)
    requires c.SetEdge? && Settable(x, c.col) && Proper(x, c)
  {
    var bundled := B.Bundled(Left(x.cols));
    var k, j := Place(x, c.col), if bundled then 0 else c.col;
    && j < |D.Alive(x.cols.v.cols)|
    && SameSet(Ranked(A.List(x.tab.out, c.src), c.oe).value, k, Ranked(A.List(w.tab.out, c.src), c.oe), j, c.value)
    && (bundled ==> SameSet(Ranked(A.List(x.tab.inc, c.dst), c.ie).value, k,
                            Ranked(A.List(w.tab.inc, c.dst), c.ie), j, c.value))
  }

  predicate StepOk(x: Edges, w: Kept, c: Change)
    requires Proper(x, c)
  {
    match c
    case OnColumns(op) => ColumnsOk(x.cols, op)
    case AddEdge(_, _, vals, _) => AddOk(x, vals)
    case RemoveEdge(e) => RemoveOk(x, w, e)
    case SetEdge(_, _, _, _, col, _) => Settable(x, col) ==> SetOk(x, w, c)
  }

  lemma TracksCols(x: Edges, w: Kept)
    requires Tracks(x, w)
    ensures w.v.cols == D.Alive(x.cols.v.cols)
  {
    var q :| D.Tracks(x.cols, w.v, q);
  }

  // Columns

  lemma AddTables(x: Edges, w: Kept, news: seq<(string, N.Body)>, strict: bool)
    requires Tracks(x, w) && ColumnsOk(x.cols, Add(news, strict))
    ensures var op := Add(news, strict); R.Paired(LiveTable(x, op)) && R.Shows(LiveTable(x, op), ReplayTable(w, op))
  {
    var q :| D.Tracks(x.cols, w.v, q);
    AddsTwice(x.cols, w.v, q, news, strict);
    var f := d => Code(Row(d) + B.Defaults(news));
    E.RevalueShows(f, x.tab, w.tab);
    E.RevaluePaired(f, x.tab);
    RebuiltEither(AddValues(x.tab, news), AddValues(w.tab, news));
  }

  /** Columns come in the transaction exactly if they do in recovery. */
  lemma AddsTwice(x: D.Deferred, w: VType, q: D.Slots, news: seq<(string, N.Body)>, strict: bool)
    requires D.Tracks(x, w, q) && ColumnsOk(x, Add(news, strict))
    ensures Adds(x.v, news) <==> Adds(w, news)
    ensures Adds(x.v, news) ==> !B.ExportFails(x.v, news) && !B.ExportFails(w, news)
  {
    D.SameConflict(x, w, q, news);
    if !Conflict(x.v, news) && !Stops(x.v, news) {
      NewToBoth(x, w, q, news);
      assert x.v.cols == [] ==> w.cols == [];
    }
  }

  /** Rebuilt or not, on either side. */
  lemma RebuiltEither(x: A.Table, y: A.Table)
    requires R.Paired(x) && R.Shows(x, y)
    ensures R.Paired(R.Rebuild(x)) && R.Shows(R.Rebuild(x), y) && R.Shows(x, R.Rebuild(y))
    ensures R.Shows(R.Rebuild(x), R.Rebuild(y))
  {
    E.RebuildPaired(x);
    R.ShowsRefl(x);
    R.RebuildShows(x, x);
    R.RebuildShows(x, y);
    E.ShowsTrans(x, R.Rebuild(x), y);
    E.ShowsTrans(x, R.Rebuild(x), R.Rebuild(y));
  }

  lemma CutShows(x: A.Table, y: A.Table, cols: seq<N.Col>, names: seq<string>)
    requires R.Paired(x) && R.Shows(x, y)
    ensures var a, b := DeleteValues(x, cols, names), DeleteValues(y, cols, names);
      R.Paired(a) && R.Shows(a, b) && R.Shows(a, R.Rebuild(b))
  {
    var f := d => Code(Cut(Row(d), cols, names));
    E.RevalueShows(f, x, y);
    E.RevaluePaired(f, x);
    RebuiltEither(DeleteValues(x, cols, names), DeleteValues(y, cols, names));
  }

  lemma DeleteReplays(x: D.Deferred, w: VType, names: seq<string>)
    requires X.Followed(x, w) && Do(x.v, Delete(names)).Some?
    ensures TryDrop(w, names).Some? && D.Logged(x, Delete(names))
  {
    var q :| D.Tracks(x, w, q);
    forall i | 0 <= i < |names| ensures HasInternal(w, names[i]) && Some(names[i]) != w.pk {
      D.HasIsNotDeleted(x, w, q, names[i]);
      D.SameHas(x, w, q, names[i]);
    }
  }

  lemma DeletedTables(x: Edges, w: Kept, names: seq<string>)
    requires w.v.cols == D.Alive(x.cols.v.cols) && Do(x.cols.v, Delete(names)).Some? && TryDrop(w.v, names).Some?
    ensures LiveTable(x, Delete(names)) == DeleteValues(x.tab, w.v.cols, names)
    ensures var t := DeleteValues(w.tab, w.v.cols, names);
      ReplayTable(w, Delete(names)) == t || ReplayTable(w, Delete(names)) == R.Rebuild(t)
  {
  }

  lemma DeleteTables(x: Edges, w: Kept, names: seq<string>)
    requires Tracks(x, w) && Do(x.cols.v, Delete(names)).Some?
    ensures R.Paired(LiveTable(x, Delete(names))) && R.Shows(LiveTable(x, Delete(names)), ReplayTable(w, Delete(names)))
  {
    TracksCols(x, w);
    DeleteReplays(x.cols, w.v, names);
    DeletedTables(x, w, names);
    CutShows(x.tab, w.tab, w.v.cols, names);
  }

  lemma ColumnsKeep(x: Edges, w: Kept, op: Op)
    requires Tracks(x, w) && ColumnsOk(x.cols, op)
    ensures var r := ReplayOf(x, w, OnColumns(op)); r.Some? && Tracks(Live(x, OnColumns(op)), r.value)
  {
    ColumnsKept(x.cols, w.v, op);
    match op
    case Add(news, strict) => AddTables(x, w, news, strict);
    case Delete(names) => if Do(x.cols.v, op).Some? { DeleteTables(x, w, names); }
    case _ =>
  }

  lemma ColumnsBreak(x: Edges, w: Kept, op: Op)
    requires Tracks(x, w) && !ColumnsOk(x.cols, op)
    ensures !Agree(Live(x, OnColumns(op)), ReplayOf(x, w, OnColumns(op)))
  {
    var order := X.SomeOrder(LiveColumns(x.cols, op).deleted);
    ColumnsBroken(x.cols, w.v, op, order);
    var y, r := Live(x, OnColumns(op)), ReplayOf(x, w, OnColumns(op));
    assert Commit(y, order).v == D.Commit(LiveColumns(x.cols, op), order);
    assert r.Some? ==> Some(r.value.v) == ColumnsReplayed(x.cols, w.v, op);
  }

  // Adding an edge

  lemma PutTracks(x: Edges, w: Kept, src: nat, dst: nat, a: seq<int>, b: seq<int>, ts: nat)
    requires Tracks(x, w)
    ensures var y, z := x.(tab := A.PutEdge(x.tab, src, dst, Code(a), ts)),
        w.(tab := A.PutEdge(w.tab, src, dst, Code(b), ts));
      (a == b ==> Tracks(y, z)) && (a != b ==> !Agree(y, Some(z)))
  {
    E.PutPaired(x.tab, src, dst, Code(a), ts);
    E.PutShows(x.tab, w.tab, src, dst, Code(a), Code(b), ts);
    OneCode(a, b);
    if a != b {
      TableBreaks(x.(tab := A.PutEdge(x.tab, src, dst, Code(a), ts)),
        w.(tab := A.PutEdge(w.tab, src, dst, Code(b), ts)));
    }
  }

  lemma PutBreaks(x: Edges, w: Kept, src: nat, dst: nat, b: seq<int>, ts: nat)
    requires Tracks(x, w)
    ensures !Agree(x, Some(w.(tab := A.PutEdge(w.tab, src, dst, Code(b), ts))))
  {
    E.PutDiffers(x.tab, w.tab, src, dst, Code(b), ts);
    TableBreaks(x, w.(tab := A.PutEdge(w.tab, src, dst, Code(b), ts)));
  }

  lemma AddExact(x: Edges, w: Kept, src: nat, dst: nat, vals: seq<int>, ts: nat)
    requires Tracks(x, w)
    ensures var c := AddEdge(src, dst, vals, ts);
      && (AddOk(x, vals) ==> ReplayOf(x, w, c).Some? && Tracks(Live(x, c), ReplayOf(x, w, c).value))
      && (!AddOk(x, vals) ==> !Agree(Live(x, c), ReplayOf(x, w, c)))
  {
    TracksCols(x, w);
    var a, b := Taken(x.cols.v.cols, vals), Taken(w.v.cols, vals);
    if b.Some? {
      if a.None? {
        PutBreaks(x, w, src, dst, b.value, ts);
      } else {
        PutTracks(x, w, src, dst, Seen(a.value, x.cols.v.cols), b.value, ts);
      }
    }
  }

  // Removing an edge

  lemma DeleteIsEdit(t: A.Table, e: A.Cap)
    requires e.oe < |A.List(t.out, e.src)| && e.ie < |A.List(t.inc, e.dst)|
    ensures A.DeleteEdge(t, e) ==
      Some(E.EditBoth(t, e.src, e.oe, A.List(t.out, e.src)[e.oe].(stamp := None),
                      e.dst, e.ie, A.List(t.inc, e.dst)[e.ie].(stamp := None)))
  {
  }

  lemma KillsAlike(a: A.Slot, b: A.Slot)
    ensures E.SameEdit(a, a.(stamp := None), b, b.(stamp := None)) <==> E.Content(a) == E.Content(b)
  {
    assert E.Content(a) + multiset{} == E.Content(a) && E.Content(b) + multiset{} == E.Content(b);
  }

  lemma RemoveShows(x: A.Table, y: A.Table, e: A.Cap)
    requires R.Shows(x, y) && Both(x, e) && Both(y, e)
    ensures A.DeleteEdge(x, e).Some? && A.DeleteEdge(y, e).Some?
    ensures R.Shows(A.DeleteEdge(x, e).value, A.DeleteEdge(y, e).value) <==>
            E.Content(OutSlot(y, e)) == E.Content(OutSlot(x, e)) && E.Content(InSlot(y, e)) == E.Content(InSlot(x, e))
  {
    DeleteIsEdit(x, e);
    DeleteIsEdit(y, e);
    E.EditShows(x, y, e.src, e.dst, e.oe, OutSlot(x, e).(stamp := None), e.ie, InSlot(x, e).(stamp := None),
      e.oe, OutSlot(y, e).(stamp := None), e.ie, InSlot(y, e).(stamp := None));
    KillsAlike(OutSlot(x, e), OutSlot(y, e));
    KillsAlike(InSlot(x, e), InSlot(y, e));
  }

  lemma RemovePaired(x: A.Table, e: A.Cap)
    requires R.Paired(x) && Both(x, e) && E.Sides(e.src, e.dst, OutSlot(x, e), InSlot(x, e))
    ensures A.DeleteEdge(x, e).Some? && R.Paired(A.DeleteEdge(x, e).value)
  {
    DeleteIsEdit(x, e);
    E.EditPaired(x, e.src, e.oe, OutSlot(x, e).(stamp := None), e.dst, e.ie, InSlot(x, e).(stamp := None));
  }

  lemma RemoveIs(x: Edges, w: Kept, e: A.Cap)
    requires Both(x.tab, e) && Both(w.tab, e)
    ensures A.DeleteEdge(x.tab, e).Some? && Live(x, RemoveEdge(e)) == x.(tab := A.DeleteEdge(x.tab, e).value)
    ensures A.DeleteEdge(w.tab, e).Some?
    ensures ReplayOf(x, w, RemoveEdge(e)) == Some(w.(tab := A.DeleteEdge(w.tab, e).value))
  {
    DeleteIsEdit(x.tab, e);
    DeleteIsEdit(w.tab, e);
  }

  lemma RemoveKeeps(x: Edges, w: Kept, e: A.Cap)
    requires Tracks(x, w) && Proper(x, RemoveEdge(e)) && RemoveOk(x, w, e)
    ensures ReplayOf(x, w, RemoveEdge(e)).Some? && Tracks(Live(x, RemoveEdge(e)), ReplayOf(x, w, RemoveEdge(e)).value)
  {
    RemoveIs(x, w, e);
    RemovePaired(x.tab, e);
    RemoveShows(x.tab, w.tab, e);
  }

  lemma RemoveBreaks(x: Edges, w: Kept, e: A.Cap)
    requires Tracks(x, w) && Proper(x, RemoveEdge(e)) && !RemoveOk(x, w, e)
    ensures !Agree(Live(x, RemoveEdge(e)), ReplayOf(x, w, RemoveEdge(e)))
  {
    if Both(w.tab, e) {
      RemoveIs(x, w, e);
      RemovePaired(x.tab, e);
      RemoveShows(x.tab, w.tab, e);
      TableBreaks(Live(x, RemoveEdge(e)), ReplayOf(x, w, RemoveEdge(e)).value);
    }
  }

  // Changing a property

  lemma OutChange(x: A.Table, x': A.Table, y: A.Table, y': A.Table, u: nat, a: A.Slot, b: A.Slot, c: A.Slot, d: A.Slot)
    requires R.Shows(x, y) && E.Changed(x.out, x'.out, u, a, b) && E.Changed(y.out, y'.out, u, c, d)
    ensures E.SameEdit(a, b, c, d) ==> forall v: nat :: E.Alike(x'.out, y'.out, v)
    ensures !E.SameEdit(a, b, c, d) ==> !R.Shows(x', y')
  {
    E.ShowsAt(x, y, u);
    E.BecomesAlike(A.List(x.out, u), A.List(x'.out, u), a, b, A.List(y.out, u), A.List(y'.out, u), c, d);
    if E.SameEdit(a, b, c, d) {
      forall v: nat ensures E.Alike(x'.out, y'.out, v) {
        E.ShowsAt(x, y, v);
        E.AlikeBut(x.out, y.out, x'.out, y'.out, u, v);
      }
    } else if R.Shows(x', y') {
      E.ShowsAt(x', y', u);
    }
  }

  lemma SetBothIs(t: A.Table, src: nat, dst: nat, oe: nat, ie: nat, k: nat, value: int)
    requires SetBoth(t, src, dst, oe, ie, k, value).Some?
    ensures var t' := SetBoth(t, src, dst, oe, ie, k, value).value;
      var s, r := Ranked(A.List(t.out, src), oe).value, Ranked(A.List(t.inc, dst), ie).value;
      E.Changed(t.out, t'.out, src, s, Valued(s, k, value)) && E.Changed(t.inc, t'.inc, dst, r, Valued(r, k, value))
  {
    var o, i := A.Nth(A.List(t.out, src), oe, 0).value, A.Nth(A.List(t.inc, dst), ie, 0).value;
    E.EditIs(t.out, src, o, Valued(A.List(t.out, src)[o], k, value));
    E.EditIs(t.inc, dst, i, Valued(A.List(t.inc, dst)[i], k, value));
  }

  /** With paired lists the other side of the edge is found. */
  lemma SetRowIs(t: A.Table, src: nat, oe: nat, k: nat, value: int)
    requires R.Paired(t) && SetRow(t, src, oe, k, value).Some?
    ensures var t' := SetRow(t, src, oe, k, value).value;
      var s := Ranked(A.List(t.out, src), oe).value;
      E.Changed(t.out, t'.out, src, s, Valued(s, k, value)) && R.Paired(t')
  {
    var o := A.Nth(A.List(t.out, src), oe, 0).value;
    var s := A.List(t.out, src)[o];
    E.EditIs(t.out, src, o, Valued(s, k, value));
    E.SeenIsThere(A.List(t.out, src), s.nbr, s.data);
    E.PairedAt(t, src, s.nbr, s.data);
    E.SeenIsThere(A.List(t.inc, s.nbr), src, s.data);
    var i := E.FirstLike(A.List(t.inc, s.nbr), src, s.data, 0);
    assert i.Some?;
    E.EditPaired(t, src, o, Valued(s, k, value), s.nbr, i.value, Valued(A.List(t.inc, s.nbr)[i.value], k, value));
  }

  function SetHere(x: Edges, c: Change): (r: Option<A.Table>)
    requires c.SetEdge? && Settable(x, c.col)
  {
    SetBoth(x.tab, c.src, c.dst, c.oe, c.ie, Place(x, c.col), c.value)
  }

  function SetThere(w: Kept, c: Change): (r: Option<A.Table>)
    requires c.SetEdge?
  {
    SetReplayed(w, c.src, c.dst, c.oe, c.ie, c.col, c.value)
  }

  /** The change is carried out on both sides, and then the same edges are seen. */
  ghost predicate SetRepeats(x: Edges, w: Kept, c: Change)
    requires c.SetEdge? && Settable(x, c.col)
  {
    SetHere(x, c).Some? && SetThere(w, c).Some? && R.Shows(SetHere(x, c).value, SetThere(w, c).value)
  }

  lemma SetPaired(x: Edges, c: Change)
    requires c.SetEdge? && R.Paired(x.tab) && Settable(x, c.col) && Proper(x, c)
    ensures SetHere(x, c).Some? && R.Paired(SetHere(x, c).value)
  {
    var k := Place(x, c.col);
    SetBothIs(x.tab, c.src, c.dst, c.oe, c.ie, k, c.value);
    var s, r := Ranked(A.List(x.tab.out, c.src), c.oe).value, Ranked(A.List(x.tab.inc, c.dst), c.ie).value;
    E.ChangePaired(x.tab, SetHere(x, c).value, c.src, c.dst, s, Valued(s, k, c.value), r, Valued(r, k, c.value));
  }

  lemma SetShows(x: A.Table, y: A.Table, src: nat, dst: nat, oe: nat, ie: nat, k: nat, j: nat, value: int)
    requires R.Shows(x, y)
    requires SetBoth(x, src, dst, oe, ie, k, value).Some? && SetBoth(y, src, dst, oe, ie, j, value).Some?
    ensures R.Shows(SetBoth(x, src, dst, oe, ie, k, value).value, SetBoth(y, src, dst, oe, ie, j, value).value) <==>
            SameSet(Ranked(A.List(x.out, src), oe).value, k, Ranked(A.List(y.out, src), oe), j, value)
            && SameSet(Ranked(A.List(x.inc, dst), ie).value, k, Ranked(A.List(y.inc, dst), ie), j, value)
  {
    SetBothIs(x, src, dst, oe, ie, k, value);
    SetBothIs(y, src, dst, oe, ie, j, value);
    var s, r := Ranked(A.List(x.out, src), oe).value, Ranked(A.List(x.inc, dst), ie).value;
    var s', r' := Ranked(A.List(y.out, src), oe).value, Ranked(A.List(y.inc, dst), ie).value;
    E.ChangeShows(x, SetBoth(x, src, dst, oe, ie, k, value).value, y, SetBoth(y, src, dst, oe, ie, j, value).value,
      src, dst, s, Valued(s, k, value), r, Valued(r, k, value), s', Valued(s', j, value), r', Valued(r', j, value));
  }

  /** The slots hold the values: both sides must change as in the transaction. */
  lemma SetBundled(x: Edges, w: Kept, c: Change)
    requires c.SetEdge? && Tracks(x, w) && Settable(x, c.col) && Proper(x, c) && B.Bundled(w.v)
    ensures SetOk(x, w, c) <==> SetRepeats(x, w, c)
  {
    TracksCols(x, w);
    SetPaired(x, c);
    LeftNotEmpty(x, c.col);
    if SetBoth(w.tab, c.src, c.dst, c.oe, c.ie, 0, c.value).Some? {
      SetShows(x.tab, w.tab, c.src, c.dst, c.oe, c.ie, Place(x, c.col), 0, c.value);
    }
  }

  lemma LeftNotEmpty(x: Edges, col: nat)
    requires Settable(x, col)
    ensures |D.Alive(x.cols.v.cols)| > 0
  {
    D.AliveHas(x.cols.v.cols, x.cols.v.cols[col]);
  }

  lemma SetRowShows(x: A.Table, y: A.Table, src: nat, dst: nat, oe: nat, ie: nat, k: nat, j: nat, value: int)
    requires R.Paired(x) && R.Shows(x, y) && SetBoth(x, src, dst, oe, ie, k, value).Some?
    requires R.Paired(SetBoth(x, src, dst, oe, ie, k, value).value) && SetRow(y, src, oe, j, value).Some?
    ensures R.Shows(SetBoth(x, src, dst, oe, ie, k, value).value, SetRow(y, src, oe, j, value).value) <==>
            SameSet(Ranked(A.List(x.out, src), oe).value, k, Ranked(A.List(y.out, src), oe), j, value)
  {
    E.ShownPaired(x, y);
    SetBothIs(x, src, dst, oe, ie, k, value);
    SetRowIs(y, src, oe, j, value);
    var s, s' := Ranked(A.List(x.out, src), oe).value, Ranked(A.List(y.out, src), oe).value;
    var x', y' := SetBoth(x, src, dst, oe, ie, k, value).value, SetRow(y, src, oe, j, value).value;
    OutChange(x, x', y, y', src, s, Valued(s, k, value), s', Valued(s', j, value));
    if E.SameEdit(s, Valued(s, k, value), s', Valued(s', j, value)) { E.OutDecides(x', y'); }
  }

  /** The outgoing slot in recovery's lists changes as here, in column j. */
  predicate OutSets(x: Edges, w: Kept, c: Change, j: nat)
    requires c.SetEdge? && Settable(x, c.col) && Proper(x, c)
  {
    SameSet(Ranked(A.List(x.tab.out, c.src), c.oe).value, Place(x, c.col),
      Ranked(A.List(w.tab.out, c.src), c.oe), j, c.value)
  }

  lemma UnbundledIs(x: Edges, w: Kept, c: Change)
    requires c.SetEdge? && Settable(x, c.col) && Proper(x, c)
    requires w.v.cols == D.Alive(x.cols.v.cols) && !B.Bundled(w.v)
    ensures SetOk(x, w, c) <==> c.col < |w.v.cols| && OutSets(x, w, c, c.col)
    ensures SetThere(w, c) == if c.col < |w.v.cols| then SetRow(w.tab, c.src, c.oe, c.col, c.value) else None
  {
  }

  lemma SetRowRepeats(x: Edges, w: Kept, c: Change)
    requires c.SetEdge? && Settable(x, c.col) && Proper(x, c) && R.Paired(x.tab) && R.Shows(x.tab, w.tab)
    requires SetThere(w, c) == SetRow(w.tab, c.src, c.oe, c.col, c.value)
    ensures SetRepeats(x, w, c) <==> OutSets(x, w, c, c.col)
  {
    SetPaired(x, c);
    if SetRow(w.tab, c.src, c.oe, c.col, c.value).Some? {
      SetRowShows(x.tab, w.tab, c.src, c.dst, c.oe, c.ie, Place(x, c.col), c.col, c.value);
    }
  }

  /** Both sides share the row: the outgoing side decides. */
  lemma SetUnbundled(x: Edges, w: Kept, c: Change)
    requires c.SetEdge? && Settable(x, c.col) && Proper(x, c) && R.Paired(x.tab) && R.Shows(x.tab, w.tab)
    requires w.v.cols == D.Alive(x.cols.v.cols) && !B.Bundled(w.v)
    ensures SetOk(x, w, c) <==> SetRepeats(x, w, c)
  {
    UnbundledIs(x, w, c);
    if c.col < |w.v.cols| { SetRowRepeats(x, w, c); }
  }

  lemma SetExact(x: Edges, w: Kept, c: Change)
    requires c.SetEdge? && Tracks(x, w) && Proper(x, c) && Settable(x, c.col)
    ensures SetOk(x, w, c) <==> SetRepeats(x, w, c)
  {
    TracksCols(x, w);
    if B.Bundled(w.v) { SetBundled(x, w, c); } else { SetUnbundled(x, w, c); }
  }

  lemma SetIs(x: Edges, w: Kept, c: Change)
    requires c.SetEdge? && Settable(x, c.col) && SetHere(x, c).Some?
    ensures Live(x, c) == x.(tab := SetHere(x, c).value)
    ensures ReplayOf(x, w, c) == if SetThere(w, c).None? then None else Some(w.(tab := SetThere(w, c).value))
  {
  }

  lemma SetKeeps(x: Edges, w: Kept, c: Change)
    requires c.SetEdge? && Tracks(x, w) && Proper(x, c) && Settable(x, c.col) && SetOk(x, w, c)
    ensures ReplayOf(x, w, c).Some? && Tracks(Live(x, c), ReplayOf(x, w, c).value)
  {
    SetPaired(x, c);
    SetExact(x, w, c);
    SetIs(x, w, c);
  }

  lemma SetBreaks(x: Edges, w: Kept, c: Change)
    requires c.SetEdge? && Tracks(x, w) && Proper(x, c) && Settable(x, c.col) && !SetOk(x, w, c)
    ensures !Agree(Live(x, c), ReplayOf(x, w, c))
  {
    SetPaired(x, c);
    SetExact(x, w, c);
    SetIs(x, w, c);
    if SetThere(w, c).Some? { TableBreaks(x.(tab := SetHere(x, c).value), w.(tab := SetThere(w, c).value)); }
  }

  // ------------------------------------------------------------------------------------
  // Any change
  // ------------------------------------------------------------------------------------

  lemma StepKeeps(x: Edges, w: Kept, c: Change)
    requires Tracks(x, w) && Proper(x, c) && StepOk(x, w, c)
    ensures ReplayOf(x, w, c).Some? && Tracks(Live(x, c), ReplayOf(x, w, c).value)
  {
    match c
    case OnColumns(op) => ColumnsKeep(x, w, op);
    case AddEdge(src, dst, vals, ts) => AddExact(x, w, src, dst, vals, ts);
    case RemoveEdge(e) => RemoveKeeps(x, w, e);
    case SetEdge(_, _, _, _, col, _) => if Settable(x, col) { SetKeeps(x, w, c); }
  }

  /**
   * One change from a state where recovery follows the transaction: commit after it shows what
   * recovery then shows exactly if the change reuses nothing that is to be removed, its values fit
   * the columns that are left, and its offsets name in recovery's lists what they name here.
   */
  lemma StepExact(x: Edges, w: Kept, c: Change)
    requires Tracks(x, w) && Proper(x, c)
    ensures Agree(Live(x, c), ReplayOf(x, w, c)) <==> StepOk(x, w, c)
  {
    if StepOk(x, w, c) {
      StepKeeps(x, w, c);
      TracksAgree(Live(x, c), ReplayOf(x, w, c).value);
    } else {
      match c
      case OnColumns(op) => ColumnsBreak(x, w, op);
      case AddEdge(src, dst, vals, ts) => AddExact(x, w, src, dst, vals, ts);
      case RemoveEdge(e) => RemoveBreaks(x, w, e);
      case SetEdge(_, _, _, _, _, _) => SetBreaks(x, w, c);
    }
  }

  // ------------------------------------------------------------------------------------
  // Whole transactions
  // ------------------------------------------------------------------------------------

  ghost predicate Settled(w: Kept) { Valid(w.v) && D.AllLive(w.v.cols) && R.Paired(w.tab) }

  function Begin(w: Kept): (x: Edges) { Edges(D.Deferred(w.v, {}), w.tab) }

  lemma BeginTracks(w: Kept)
    requires Settled(w)
    ensures Tracks(Begin(w), w)
  {
    X.FollowedStart(w.v);
    R.ShowsRefl(w.tab);
  }

  /** The next transaction starts from what was committed, recovery goes on from what it has. */
  lemma NextTransaction(x: Edges, w: Kept, order: seq<string>)
    requires Tracks(x, w) && D.Listing(order, x.cols.deleted) && Valid(w.v)
    ensures Tracks(Begin(Commit(x, order)), w)
  {
    TracksAgree(x, w);
    assert Same(Commit(x, order), w);
    TracksCols(x, w);
    D.AliveLive(x.cols.v.cols);
    X.FollowedStart(w.v);
    E.ShownPaired(x.tab, w.tab);
    E.ShowsBack(Commit(x, order).tab, w.tab);
    E.ShownPaired(w.tab, Commit(x, order).tab);
  }

  function LiveAfter(x: Edges, cs: seq<Change>, k: nat): (y: Edges)
    requires k <= |cs|
  {
    if k == 0 then x else Live(LiveAfter(x, cs, k - 1), cs[k - 1])
  }

  function ReplayAfter(x: Edges, w: Kept, cs: seq<Change>, k: nat): (r: Option<Kept>)
    requires k <= |cs|
  {
    if k == 0 then Some(w)
    else match ReplayAfter(x, w, cs, k - 1)
      case None => None
      case Some(v) => ReplayOf(LiveAfter(x, cs, k - 1), v, cs[k - 1])
  }

  ghost predicate AgreeAt(x: Edges, w: Kept, cs: seq<Change>, k: nat)
    requires k <= |cs|
  {
    Agree(LiveAfter(x, cs, k), ReplayAfter(x, w, cs, k))
  }

  predicate ProperAt(x: Edges, cs: seq<Change>, k: nat)
    requires k < |cs|
  {
    Proper(LiveAfter(x, cs, k), cs[k])
  }

  predicate OkAt(x: Edges, w: Kept, cs: seq<Change>, k: nat)
    requires k < |cs|
  {
    && ProperAt(x, cs, k) && ReplayAfter(x, w, cs, k).Some?
    && StepOk(LiveAfter(x, cs, k), ReplayAfter(x, w, cs, k).value, cs[k])
  }

  predicate AllProper(x: Edges, cs: seq<Change>) { forall k: nat | k < |cs| :: ProperAt(x, cs, k) }

  ghost predicate TracksAt(x: Edges, w: Kept, cs: seq<Change>, k: nat)
    requires k <= |cs|
  {
    ReplayAfter(x, w, cs, k).Some? && Tracks(LiveAfter(x, cs, k), ReplayAfter(x, w, cs, k).value)
  }

  lemma NextTracks(x: Edges, w: Kept, cs: seq<Change>, k: nat)
    requires k < |cs| && TracksAt(x, w, cs, k) && OkAt(x, w, cs, k)
    ensures TracksAt(x, w, cs, k + 1)
  {
    StepKeeps(LiveAfter(x, cs, k), ReplayAfter(x, w, cs, k).value, cs[k]);
  }

  lemma AfterTracks(x: Edges, w: Kept, cs: seq<Change>, k: nat)
    requires Tracks(x, w) && k <= |cs| && forall i: nat | i < k :: OkAt(x, w, cs, i)
    ensures TracksAt(x, w, cs, k)
  {
    for n := 0 to k
      invariant TracksAt(x, w, cs, n)
    {
      assert OkAt(x, w, cs, n);
      NextTracks(x, w, cs, n);
    }
  }

  lemma NextAgrees(x: Edges, w: Kept, cs: seq<Change>, k: nat)
    requires k < |cs| && TracksAt(x, w, cs, k) && ProperAt(x, cs, k)
    ensures AgreeAt(x, w, cs, k + 1) <==> OkAt(x, w, cs, k)
  {
    StepExact(LiveAfter(x, cs, k), ReplayAfter(x, w, cs, k).value, cs[k]);
  }

  lemma AgreeNext(x: Edges, w: Kept, cs: seq<Change>, k: nat)
    requires Tracks(x, w) && AllProper(x, cs) && k < |cs| && forall i: nat | i < k :: OkAt(x, w, cs, i)
    ensures AgreeAt(x, w, cs, k + 1) <==> OkAt(x, w, cs, k)
  {
    AfterTracks(x, w, cs, k);
    assert ProperAt(x, cs, k);
    NextAgrees(x, w, cs, k);
  }

  /**
   * One edge type: wherever the transaction stops, commit gives the columns and shows the edges that
   * recovery does, exactly if every change is one that recovery repeats.
   */
  lemma DeferredExact(x: Edges, w: Kept, cs: seq<Change>)
    requires Tracks(x, w) && AllProper(x, cs)
    ensures (forall k: nat | k <= |cs| :: AgreeAt(x, w, cs, k)) <==> (forall k: nat | k < |cs| :: OkAt(x, w, cs, k))
  {
    if forall k: nat | k < |cs| :: OkAt(x, w, cs, k) {
      AgreesFirst(x, w, cs);
      forall k: nat | k <= |cs| ensures AgreeAt(x, w, cs, k) { if k > 0 { AgreeNext(x, w, cs, k - 1); } }
    }
    if forall k: nat | k <= |cs| :: AgreeAt(x, w, cs, k) {
      forall k: nat | k < |cs| ensures OkAt(x, w, cs, k) { AgreeingOk(x, w, cs, k); }
    }
  }

  lemma {:induction false} AgreeingOk(x: Edges, w: Kept, cs: seq<Change>, k: nat)
    requires Tracks(x, w) && AllProper(x, cs) && k < |cs| && forall i: nat | i <= |cs| :: AgreeAt(x, w, cs, i)
    ensures forall i: nat | i <= k :: OkAt(x, w, cs, i)
  {
    if k > 0 { AgreeingOk(x, w, cs, k - 1); }
    AgreeNext(x, w, cs, k);
  }

  lemma AgreesFirst(x: Edges, w: Kept, cs: seq<Change>)
    requires Tracks(x, w)
    ensures AgreeAt(x, w, cs, 0)
  {
    TracksAgree(x, w);
  }
}
