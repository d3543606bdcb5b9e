/**
 * The columns of an edge type with deletion deferred to commit, against the log replayed in
 * recovery.  As for vertex types, but the schema of an edge type throws where a name is known
 * already or a column to be renamed is gone, and recovery fails with it.
 */
module EdgeColumns {
  import opened Wrappers
  import opened Renames
  import opened Columns
  import opened Deferral
  import X = DeferralExact
  import B = Database

  // ------------------------------------------------------------------------------------
  // The transaction and its replay
  // ------------------------------------------------------------------------------------

  predicate Named(cols: seq<Col>, name: string) {
    var f := Find(cols, name, false, 0); f.Some? && !cols[f.value].dead
  }

  /** After the renames before it, a pair still finds its column. */
  predicate Finds(cols: seq<Col>, ps: seq<Pair>, i: nat)
    requires i < |ps|
  {
    Named(RenameCols(cols, ps, i), ps[i].old_)
  }

  /** Where the schema throws: at the first pair whose column it does not find. */
  function FirstHalt(cols: seq<Col>, ps: seq<Pair>, i: nat): (k: nat)
    requires i <= |ps|
    ensures i <= k <= |ps| && (forall j | i <= j < k :: Finds(cols, ps, j)) && (k < |ps| ==> !Finds(cols, ps, k))
    decreases |ps| - i
  {
    if i == |ps| || !Finds(cols, ps, i) then i else FirstHalt(cols, ps, i + 1)
  }

  predicate Halts(cols: seq<Col>, ps: seq<Pair>) { FirstHalt(cols, ps, 0) < |ps| }

  predicate Stops(v: VType, news: seq<(string, Body)>) { B.FirstKnown(v, news, 0) < |news| }

  function Halted(x: Deferred, ps: seq<Pair>): (y: Deferred) {
    x.(v := x.v.(cols := RenameCols(x.v.cols, ps, FirstHalt(x.v.cols, ps, 0))))
  }

  /** The schema keeps what was done before it threw; the table is not reached. */
  function LiveColumns(x: Deferred, op: Op): (y: Deferred) {
    match op
    case Add(news, _) =>
      if !Conflict(x.v, news) && Stops(x.v, news) then x.(v := B.Thrown(x.v, news)) else LiveStep(x, op)
    case Rename(ps, _) => if TryRename(x.v, ps).Some? && Halts(x.v.cols, ps) then Halted(x, ps) else LiveStep(x, op)
    case Delete(_) => LiveStep(x, op)
    case Set(_, _) => x
  }

  /** None: recovery fails. */
  function ReplayColumns(w: VType, op: Op): (r: Option<VType>) {
    match op
    case Add(news, _) =>
      if Conflict(w, news) then Some(w)
      else if Stops(w, news) || B.ExportFails(w, news) then None
      else Some(AddAll(w, news))
    case Rename(ps, _) => if TryRename(w, ps).Some? && Halts(w.cols, ps) then None else Some(ReplayStep(w, op))
    case Delete(_) => Some(ReplayStep(w, op))
    case Set(_, _) => Some(w)
  }

  predicate LogsColumns(x: Deferred, op: Op) { !op.Set? && Logged(x, op) }

  function ColumnsReplayed(x: Deferred, w: VType, op: Op): (r: Option<VType>) {
    if LogsColumns(x, op) then ReplayColumns(w, op) else Some(w)
  }

  /** The type without the columns to be removed. */
  function Left(x: Deferred): (v: VType) { x.v.(cols := Alive(x.v.cols)) }

  /** Nothing throws, and nothing that is to be removed is used again. */
  predicate ColumnsOk(x: Deferred, op: Op) {
    match op
    case Add(news, strict) =>
      if Conflict(x.v, news) then strict || AddOk(x, news)
      else if Stops(x.v, news) then B.FirstKnown(x.v, news, 0) == 0 && Conflict(Left(x), news)
      else !B.ExportFails(Left(x), news)
    case Rename(ps, _) => TryRename(x.v, ps).Some? ==> X.RenameOk(x, ps) && !Halts(Alive(x.v.cols), ps)
    case Delete(names) => Do(x.v, op).Some? ==> DeleteOk(x, names)
    case Set(_, _) => true
  }

  // ------------------------------------------------------------------------------------
  // Adding
  // ------------------------------------------------------------------------------------

  lemma DeletedIsKnown(x: Deferred, name: string)
    requires Marked(x.v.cols, x.deleted) && name in x.deleted
    ensures HasInternal(x.v, name)
  {
    var j := DeadAt(x.v.cols, x.deleted, name);
  }

  lemma LeftIsKnown(x: Deferred, w: VType, q: Slots, name: string)
    requires Tracks(x, w, q) && HasInternal(w, name)
    ensures HasInternal(x.v, name)
  {
    FindAlive(x.v.cols, name);
  }

  /** Names unknown to the transaction are unknown to recovery, and none of them is to be removed. */
  lemma NewToBoth(x: Deferred, w: VType, q: Slots, news: seq<(string, Body)>)
    requires Tracks(x, w, q) && !Stops(x.v, news)
    ensures AddOk(x, news) && !Stops(w, news)
  {
    forall i | 0 <= i < |news| ensures news[i].0 !in x.deleted {
      assert !B.Known(x.v, news, i);
      if news[i].0 in x.deleted { DeletedIsKnown(x, news[i].0); }
    }
    if Stops(w, news) {
      var k := B.FirstKnown(w, news, 0);
      assert !B.Known(x.v, news, k);
      if HasInternal(w, news[k].0) { LeftIsKnown(x, w, q, news[k].0); }
    }
  }

  lemma AddKept(x: Deferred, w: VType, q: Slots, news: seq<(string, Body)>, strict: bool) returns (r: Slots)
    requires Tracks(x, w, q) && ColumnsOk(x, Add(news, strict))
    ensures ReplayColumns(w, Add(news, strict)).Some?
    ensures Tracks(LiveColumns(x, Add(news, strict)), ReplayColumns(w, Add(news, strict)).value, r)
  {
    SameConflict(x, w, q, news);
    r := q;
    if Conflict(x.v, news) {
      r := AddKeeps(x, w, q, news, strict);
    } else if Stops(x.v, news) {
      assert news[..0] == [];
      assert Conflict(w, news);
    } else {
      NewToBoth(x, w, q, news);
      r := AddKeeps(x, w, q, news, strict);
    }
  }

  lemma {:induction false} FrontAdded(v: VType, news: seq<(string, Body)>)
    ensures |AddAll(v, news).cols| == |v.cols| + |news| && AddAll(v, news).cols[..|v.cols|] == v.cols
    ensures forall j | |v.cols| <= j < |v.cols| + |news| ::
      AddAll(v, news).cols[j] == Col(news[j - |v.cols|].0, news[j - |v.cols|].1, false)
  {
    if news != [] { FrontAdded(v, news[..|news| - 1]); }
  }

  /** The names in front of the one that is known are new. */
  lemma ThrownMarked(x: Deferred, news: seq<(string, Body)>)
    requires Marked(x.v.cols, x.deleted)
    ensures Marked(B.Thrown(x.v, news).cols, x.deleted)
    ensures |Alive(B.Thrown(x.v, news).cols)| == |Alive(x.v.cols)| + B.FirstKnown(x.v, news, 0)
  {
    var front := news[..B.FirstKnown(x.v, news, 0)];
    var cols, c := x.v.cols, AddAll(x.v, front).cols;
    FrontAdded(x.v, front);
    forall d | d in x.deleted ensures exists j :: 0 <= j < |c| && c[j].dead && c[j].name == d {
      var j := DeadAt(cols, x.deleted, d);
      assert c[j] == c[..|cols|][j];
    }
    forall j: nat | j < |c| && c[j].dead
      ensures c[j].name in x.deleted && forall i | 0 <= i < j :: c[i].name != c[j].name
    {
      assert c[j] == c[..|cols|][j];
      forall i | 0 <= i < j ensures c[i].name != c[j].name { assert c[i] == c[..|cols|][i]; }
    }
    assert c == cols + c[|cols|..];
    AliveAppend(cols, c[|cols|..]);
    AliveAll(c[|cols|..]);
  }

  lemma {:induction false} AliveAll(cols: seq<Col>)
    requires AllLive(cols)
    ensures Alive(cols) == cols
  {
    if cols != [] { AliveAll(cols[..|cols| - 1]); }
  }

  lemma ThrownBreaks(x: Deferred, w: VType, q: Slots, news: seq<(string, Body)>, order: seq<string>)
    requires Tracks(x, w, q) && !Conflict(x.v, news) && Stops(x.v, news) && Listing(order, x.deleted)
    requires !(B.FirstKnown(x.v, news, 0) == 0 && Conflict(Left(x), news))
    requires !Conflict(w, news) ==> !Stops(w, news)
    ensures Commit(x.(v := B.Thrown(x.v, news)), order) != if Conflict(w, news) then w else AddAll(w, news)
  {
    ThrownMarked(x, news);
    CommitPurges(x.(v := B.Thrown(x.v, news)), order);
    FrontAdded(w, news);
    assert Conflict(w, news) <==> Conflict(Left(x), news);
  }

  lemma AddBroken(x: Deferred, w: VType, q: Slots, news: seq<(string, Body)>, strict: bool, order: seq<string>)
    requires Tracks(x, w, q) && !ColumnsOk(x, Add(news, strict))
    requires Listing(order, LiveColumns(x, Add(news, strict)).deleted)
    ensures var r := ReplayColumns(w, Add(news, strict));
      r.None? || Commit(LiveColumns(x, Add(news, strict)), order) != r.value
  {
    SameConflict(x, w, q, news);
    if Conflict(x.v, news) {
      AddBreaks(x, w, q, news, strict, order);
    } else if Stops(x.v, news) {
      if Conflict(w, news) || !Stops(w, news) { ThrownBreaks(x, w, q, news, order); }
    } else {
      NewToBoth(x, w, q, news);
    }
  }

  // ------------------------------------------------------------------------------------
  // Renaming
  // ------------------------------------------------------------------------------------

  /** Recovery finds the column exactly if the transaction does. */
  lemma SameNamed(x: Deferred, w: VType, q: Slots, name: string)
    requires Tracks(x, w, q) && name !in x.deleted
    ensures Named(w.cols, name) <==> Named(x.v.cols, name)
  {
    FindAlive(x.v.cols, name);
    AliveLive(x.v.cols);
    var f := Find(x.v.cols, name, false, 0);
    assert f.Some? ==> !x.v.cols[f.value].dead;
    FirstIsLive(x.v.cols, name);
  }

  lemma FirstIsLive(cols: seq<Col>, name: string)
    requires var f := Find(cols, name, false, 0); f.Some? ==> !cols[f.value].dead
    ensures Find(cols, name, true, 0).Some? <==> Find(cols, name, false, 0).Some?
  {
  }

  lemma SameNamedAt(x: Deferred, w: VType, q: Slots, ps: seq<Pair>, k: nat)
    requires Tracks(x, w, q) && k < |ps| && forall i | 0 <= i < |ps| :: ps[i].old_ !in x.deleted
    requires forall i: nat | i < k :: X.PairOkAt(x, ps, i)
    ensures Finds(w.cols, ps, k) <==> Finds(x.v.cols, ps, k)
  {
    var r := X.PartTracks(x, w, q, ps, k);
    SameNamed(Deferred(X.Part(x.v, ps, k), x.deleted), X.Part(w, ps, k), r, ps[k].old_);
  }

  /** As long as no name to be removed is reused, the transaction does not throw where recovery does not. */
  lemma HaltsLater(x: Deferred, w: VType, q: Slots, ps: seq<Pair>, n: nat)
    requires Tracks(x, w, q) && n <= |ps| && forall i | 0 <= i < |ps| :: ps[i].old_ !in x.deleted
    requires (forall i: nat | i < n :: X.PairOkAt(x, ps, i)) && !Halts(w.cols, ps)
    ensures FirstHalt(x.v.cols, ps, 0) >= n && (n < |ps| ==> FirstHalt(x.v.cols, ps, 0) > n)
  {
    var h := FirstHalt(x.v.cols, ps, 0);
    if h < |ps| && h <= n { SameNamedAt(x, w, q, ps, h); }
  }

  lemma RenameKept(x: Deferred, w: VType, q: Slots, ps: seq<Pair>, strict: bool) returns (r: Slots)
    requires Tracks(x, w, q) && TryRename(x.v, ps).Some? && ColumnsOk(x, Rename(ps, strict))
    ensures LiveColumns(x, Rename(ps, strict)) == LiveStep(x, Rename(ps, strict))
    ensures ReplayColumns(w, Rename(ps, strict)) == Some(ReplayStep(w, Rename(ps, strict)))
    ensures Tracks(LiveStep(x, Rename(ps, strict)), ReplayStep(w, Rename(ps, strict)), r)
    ensures LogsColumns(x, Rename(ps, strict))
  {
    X.OldsStay(x, w, q, ps);
    HaltsLater(x, w, q, ps, |ps|);
    r := X.RenameKeeps(x, w, q, ps, strict);
  }

  lemma RenamedIs(x: Deferred, ps: seq<Pair>, strict: bool)
    requires TryRename(x.v, ps).Some?
    ensures var y := LiveColumns(x, Rename(ps, strict));
      y.deleted == x.deleted && y.v.pk == x.v.pk && y.v.cols == RenameCols(x.v.cols, ps, FirstHalt(x.v.cols, ps, 0))
  {
    if !Halts(x.v.cols, ps) { RenamedWhole(x, ps, strict); }
  }

  lemma RenamedWhole(x: Deferred, ps: seq<Pair>, strict: bool)
    requires TryRename(x.v, ps).Some?
    ensures LiveStep(x, Rename(ps, strict)) == Deferred(RenameAll(x.v, ps), x.deleted)
  {
  }

  lemma RenameReuses(x: Deferred, w: VType, q: Slots, ps: seq<Pair>, v: VType, order: seq<string>)
    requires Tracks(x, w, q) && TryRename(x.v, ps).Some? && !X.RenameOk(x, ps) && !Halts(w.cols, ps)
    requires Listing(order, x.deleted)
    requires v.pk == x.v.pk && v.cols == RenameCols(x.v.cols, ps, FirstHalt(x.v.cols, ps, 0))
    ensures Commit(Deferred(v, x.deleted), order) != RenameAll(w, ps)
  {
    X.OldsStay(x, w, q, ps);
    var i := X.FirstBad(x, ps, |ps|);
    HaltsLater(x, w, q, ps, i);
    var k := FirstHalt(x.v.cols, ps, 0);
    X.RenamedAllowed(x, ps, k, v, order);
    X.RenameBreaksAt(x, w, q, ps, i, k, v, order);
  }

  lemma RenameBroken(x: Deferred, w: VType, q: Slots, ps: seq<Pair>, strict: bool, order: seq<string>)
    requires Tracks(x, w, q) && !ColumnsOk(x, Rename(ps, strict)) && Listing(order, x.deleted)
    ensures var r := ColumnsReplayed(x, w, Rename(ps, strict));
      r.None? || Commit(LiveColumns(x, Rename(ps, strict)), order) != r.value
  {
    X.OldsStay(x, w, q, ps);
    X.SameRename(x, w, q, ps);
    RenamedIs(x, ps, strict);
    if !Halts(w.cols, ps) { RenameReuses(x, w, q, ps, LiveColumns(x, Rename(ps, strict)).v, order); }
  }

  // ------------------------------------------------------------------------------------
  // Any change
  // ------------------------------------------------------------------------------------

  lemma ColumnsKept(x: Deferred, w: VType, op: Op)
    requires X.Followed(x, w) && ColumnsOk(x, op)
    ensures ColumnsReplayed(x, w, op).Some? && X.Followed(LiveColumns(x, op), ColumnsReplayed(x, w, op).value)
  {
    var q :| Tracks(x, w, q);
    match op
    case Add(news, strict) => var r := AddKept(x, w, q, news, strict);
    case Rename(ps, strict) =>
      if TryRename(x.v, ps).Some? {
        var r := RenameKept(x, w, q, ps, strict);
      } else {
        X.RefusedTwice(x, w, q, op);
        if Logged(x, op) { X.SameRename(x, w, q, ps); }
      }
    case Delete(_) => var r := X.StepKeeps(x, w, q, op);
    case Set(_, _) =>
  }

  lemma ColumnsBroken(x: Deferred, w: VType, op: Op, order: seq<string>)
    requires X.Followed(x, w) && !ColumnsOk(x, op) && Listing(order, LiveColumns(x, op).deleted)
    ensures var r := ColumnsReplayed(x, w, op); r.None? || Commit(LiveColumns(x, op), order) != r.value
  {
    var q :| Tracks(x, w, q);
    match op
    case Add(news, strict) => AddBroken(x, w, q, news, strict, order);
    case Rename(ps, strict) => RenameBroken(x, w, q, ps, strict, order);
    case Delete(_) => X.StepBreaks(x, w, q, op, order);
  }
}
