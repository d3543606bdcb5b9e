/**
 * What the column changes of a transaction do to the columns and to the names to be removed, what
 * their records do in recovery, and what commit removes: said of the columns themselves.
 */
module DeferralEffects {
  import opened Wrappers
  import opened Renames
  import opened Columns
  import opened Deferral
  import B = Database
  import CE = ColumnEffects
  import DBE = DatabaseEffects
  import EC = EdgeColumns

  predicate Among(news: seq<(string, Body)>, name: string) { exists i :: 0 <= i < |news| && news[i].0 == name }

  /** Whether a name is to be removed after the operation. */
  predicate Pending(x: Deferred, op: Op, name: string) {
    match op
    case Add(news, _) => name in x.deleted && !Among(news, name)
    case Delete(names) => name in x.deleted || name in names
    case _ => name in x.deleted
  }

  /** In the transaction: refused, or done as asked, with the names to be removed. */
  ghost predicate DoneHere(x: Deferred, op: Op, y: Deferred) {
    if CE.Refused(x.v, op) then y == x
    else CE.Does(x.v, op, y.v) && forall name :: name in y.deleted <==> Pending(x, op, name)
  }

  lemma LiveStepDoes(x: Deferred, op: Op)
    ensures DoneHere(x, op, LiveStep(x, op))
  {
    CE.ColumnsDo(x.v, op);
    if !CE.Refused(x.v, op) && op.Add? {
      forall name ensures name in Elems(Names(op.news)) <==> Among(op.news, name) {
        if name in Elems(Names(op.news)) {
          var i :| 0 <= i < |Names(op.news)| && Names(op.news)[i] == name;
          assert op.news[i].0 == name;
        }
      }
    }
  }

  /** What is in the log: additions in any case, renames of names not to be removed, and otherwise what is done. */
  ghost predicate Logs(x: Deferred, op: Op) {
    match op
    case Add(_, _) => true
    case Rename(ps, _) => forall i | 0 <= i < |ps| :: ps[i].old_ !in x.deleted
    case _ => !CE.Refused(x.v, op)
  }

  lemma LoggedIs(x: Deferred, op: Op)
    ensures Logged(x, op) <==> Logs(x, op)
  {
    CE.ColumnsDo(x.v, op);
  }

  /** The schema has all the names, whether deleted or not, and none is the primary key. */
  ghost predicate Removable(v: VType, names: seq<string>) {
    forall i | 0 <= i < |names| :: v.pk != Some(names[i]) && exists j: nat :: CE.NameAt(v.cols, names[i], j)
  }

  /** The named columns go and the others keep their order; or nothing happens. */
  ghost predicate Removed(v: VType, names: seq<string>, w: VType) {
    if Removable(v, names) then CE.Dropped(v.cols, names, w.cols) && Valid(w) && w.pk == v.pk else w == v
  }

  lemma RemovableIs(v: VType, names: seq<string>)
    ensures TryDrop(v, names).Some? <==> Removable(v, names)
  {
    forall i | 0 <= i < |names|
      ensures (HasInternal(v, names[i]) && v.pk != Some(names[i])) <==>
                (v.pk != Some(names[i]) && exists j: nat :: CE.NameAt(v.cols, names[i], j))
    {
      CE.HasIs(v, names[i]);
      CE.FindIsFirst(v.cols, names[i], false, 0);
      var f := Find(v.cols, names[i], false, 0);
      if f.Some? { assert CE.NameAt(v.cols, names[i], f.value); }
    }
  }

  /** In recovery a refusal is ignored, a cell is found by its column's id, and deletion is removal. */
  ghost predicate DoneThere(w: VType, op: Op, z: VType) {
    match op
    case Delete(names) => Removed(w, names, z)
    case Set(col, body) => if col < |w.cols| then CE.BodySet(w, col, body, z) else z == w
    case _ => CE.Does(w, op, z)
  }

  lemma ReplayStepDoes(w: VType, op: Op)
    requires Valid(w)
    ensures DoneThere(w, op, ReplayStep(w, op))
  {
    match op
    case Add(news, _) => CE.ColumnsDo(w, Add(news, false));
    case Rename(ps, _) =>
      CE.RenameAllDoes(w, ps);
      forall i | 0 <= i < |ps| ensures Has(w, ps[i].old_) <==> CE.Knows(w, ps[i].old_) { CE.HasIs(w, ps[i].old_); }
    case Delete(names) =>
      RemovableIs(w, names);
      CE.DropDoes(w, names);
    case Set(_, _) =>
  }

  /** At commit the names go in the order they come. */
  lemma CommitDoes(x: Deferred, order: seq<string>)
    requires Valid(x.v)
    ensures Removed(x.v, order, Commit(x, order))
  {
    RemovableIs(x.v, order);
    CE.DropDoes(x.v, order);
  }

  // ------------------------------------------------------------------------------------
  // Edge types
  // ------------------------------------------------------------------------------------

  /** A pair whose column is not there at its turn. */
  ghost predicate Missing(cols: seq<Col>, name: string) {
    forall j: nat | CE.NameAt(cols, name, j) :: cols[j].dead
  }

  /** The schema throws at pair i, having carried out those in front of it. */
  ghost predicate HaltsAt(cols: seq<Col>, ps: seq<Pair>, i: nat, cs: seq<seq<Col>>) {
    && i < |ps| && |cs| == i + 1 && CE.ColsRenamed(cols, ps[..i], cs[i], cs)
    && (forall k: nat | k < i :: !Missing(cs[k], ps[k].old_)) && Missing(cs[i], ps[i].old_)
  }

  lemma NamedIs(cols: seq<Col>, name: string)
    ensures EC.Named(cols, name) <==> !Missing(cols, name)
  {
    CE.FindIsFirst(cols, name, false, 0);
    var f := Find(cols, name, false, 0);
    if f.Some? {
      assert CE.NameAt(cols, name, f.value);
    }
  }

  lemma ChainTo(cols: seq<Col>, ps: seq<Pair>, n: nat) returns (cs: seq<seq<Col>>)
    requires n <= |ps|
    ensures |cs| == n + 1 && (forall k: nat | k <= n :: cs[k] == RenameCols(cols, ps, k))
    ensures CE.ColsRenamed(cols, ps[..n], cs[n], cs)
  {
    cs := seq(n + 1, i requires 0 <= i < n + 1 => RenameCols(cols, ps, i));
    forall i: nat | i < n ensures CE.RenameStep(cs[i], cs[i + 1], ps[..n][i]) { CE.RenameColDoes(cs[i], ps[i]); }
  }

  lemma HaltIs(cols: seq<Col>, ps: seq<Pair>, n: nat) returns (cs: seq<seq<Col>>)
    requires n < |ps| && n == EC.FirstHalt(cols, ps, 0)
    ensures HaltsAt(cols, ps, n, cs) && cs[n] == RenameCols(cols, ps, n)
  {
    cs := ChainTo(cols, ps, n);
    forall k: nat | k < n ensures !Missing(cs[k], ps[k].old_) {
      assert EC.Finds(cols, ps, k);
      NamedIs(cs[k], ps[k].old_);
    }
    assert !EC.Finds(cols, ps, n);
    NamedIs(cs[n], ps[n].old_);
  }

  /**
   * Where the schema throws: on a name that is known already or a column that is gone; and the lists
   * cannot always be exported.
   */
  ghost predicate Fails(w: VType, op: Op) {
    match op
    case Add(news, _) =>
      && DBE.Comes(w, op)
      && ((exists i: nat :: DBE.ThrowsAt(w, news, i)) || (|w.cols| == 0 && |news| >= 2 && !news[0].1.varchar))
    case Rename(ps, _) =>
      (forall i | 0 <= i < |ps| :: CE.Knows(w, ps[i].old_)) && exists i: nat, cs :: HaltsAt(w.cols, ps, i, cs)
    case _ => false
  }

  lemma AdditionStops(v: VType, news: seq<(string, Body)>, strict: bool)
    ensures DBE.Comes(v, Add(news, strict)) <==> !Conflict(v, news)
    ensures EC.Stops(v, news) ==> DBE.ThrowsAt(v, news, B.FirstKnown(v, news, 0))
    ensures !EC.Stops(v, news) ==> forall i: nat :: !DBE.ThrowsAt(v, news, i)
  {
    DBE.ConflictIs(v, Add(news, strict));
    forall k: nat ensures DBE.ThrowsAt(v, news, k) <==> k < |news| && B.FirstKnown(v, news, 0) == k {
      DBE.FirstIs(v, news, k);
    }
    DBE.FirstIs(v, news, B.FirstKnown(v, news, 0));
  }

  /** Additions of a known name throw and keep the names in front, in the schema only. */
  lemma EdgeAdditionThrows(x: Deferred, news: seq<(string, Body)>, strict: bool)
    ensures var y := EC.LiveColumns(x, Add(news, strict));
      if DBE.Comes(x.v, Add(news, strict)) && exists i: nat :: DBE.ThrowsAt(x.v, news, i) then
        && y.deleted == x.deleted && y.v.pk == x.v.pk && y.v.ids == x.v.ids && y.v.width == x.v.width
        && exists i: nat :: DBE.ThrowsAt(x.v, news, i) && CE.ColsAdded(x.v.cols, news[..i], y.v.cols)
      else DoneHere(x, Add(news, strict), y)
  {
    AdditionStops(x.v, news, strict);
    if EC.Stops(x.v, news) && !Conflict(x.v, news) {
      CE.AddAllDoes(x.v, news[..B.FirstKnown(x.v, news, 0)]);
    } else {
      LiveStepDoes(x, Add(news, strict));
    }
  }

  /** Renaming is determined by its steps. */
  lemma {:induction false} StepsAre(cols: seq<Col>, ps: seq<Pair>, i: nat, cs: seq<seq<Col>>, k: nat)
    requires HaltsAt(cols, ps, i, cs) && k <= i
    ensures cs[k] == RenameCols(cols, ps, k)
  {
    if k > 0 {
      StepsAre(cols, ps, i, cs, k - 1);
      assert CE.RenameStep(cs[k - 1], cs[k - 1 + 1], ps[..i][k - 1]);
      CE.RenameColDoes(cs[k - 1], ps[k - 1]);
      assert cs[k] == RenameCol(cs[k - 1], ps[k - 1]);
    }
  }

  lemma HaltsIs(cols: seq<Col>, ps: seq<Pair>)
    ensures EC.Halts(cols, ps) <==> exists i: nat, cs :: HaltsAt(cols, ps, i, cs)
  {
    if EC.Halts(cols, ps) {
      var cs := HaltIs(cols, ps, EC.FirstHalt(cols, ps, 0));
    }
    if i: nat, cs :| HaltsAt(cols, ps, i, cs) {
      StepsAre(cols, ps, i, cs, i);
      NamedIs(cs[i], ps[i].old_);
      assert !EC.Finds(cols, ps, i);
    }
  }

  lemma RenameFails(v: VType, ps: seq<Pair>, strict: bool)
    ensures Fails(v, Rename(ps, strict)) <==> TryRename(v, ps).Some? && EC.Halts(v.cols, ps)
  {
    HaltsIs(v.cols, ps);
    forall i | 0 <= i < |ps| ensures Has(v, ps[i].old_) <==> CE.Knows(v, ps[i].old_) { CE.HasIs(v, ps[i].old_); }
  }

  /** A rename that throws leaves the renames in front of it, in the schema only. */
  lemma EdgeRenameHalts(x: Deferred, ps: seq<Pair>, strict: bool)
    ensures var y := EC.LiveColumns(x, Rename(ps, strict));
      if Fails(x.v, Rename(ps, strict)) then
        && y.deleted == x.deleted && y.v.pk == x.v.pk && y.v.ids == x.v.ids && y.v.width == x.v.width
        && exists i: nat, cs :: HaltsAt(x.v.cols, ps, i, cs) && y.v.cols == cs[i]
      else DoneHere(x, Rename(ps, strict), y)
  {
    RenameFails(x.v, ps, strict);
    if Fails(x.v, Rename(ps, strict)) {
      var cs := HaltIs(x.v.cols, ps, EC.FirstHalt(x.v.cols, ps, 0));
    } else {
      LiveStepDoes(x, Rename(ps, strict));
    }
  }

  lemma AddFailsThere(w: VType, news: seq<(string, Body)>, strict: bool)
    ensures EC.ReplayColumns(w, Add(news, strict)).None? <==> Fails(w, Add(news, strict))
  {
    AdditionStops(w, news, strict);
    assert B.ExportFails(w, news) <==> |w.cols| == 0 && |news| >= 2 && !news[0].1.varchar;
  }

  lemma RenameFailsThere(w: VType, ps: seq<Pair>, strict: bool)
    ensures EC.ReplayColumns(w, Rename(ps, strict)).None? <==> Fails(w, Rename(ps, strict))
  {
    RenameFails(w, ps, strict);
  }

  lemma ReplayedAsStep(w: VType, op: Op)
    requires EC.ReplayColumns(w, op).Some?
    ensures EC.ReplayColumns(w, op).value == if op.Set? then w else ReplayStep(w, op)
  {
  }

  /** In recovery: it fails, or does the same to the columns; values are not among them. */
  lemma EdgeReplayDoes(w: VType, op: Op)
    requires Valid(w)
    ensures var r := EC.ReplayColumns(w, op);
      (r.None? <==> Fails(w, op)) && (r.Some? ==> if op.Set? then r.value == w else DoneThere(w, op, r.value))
  {
    if op.Add? {
      AddFailsThere(w, op.news, op.strict);
    } else if op.Rename? {
      RenameFailsThere(w, op.ps, op.strict);
    }
    if EC.ReplayColumns(w, op).Some? {
      ReplayedAsStep(w, op);
      ReplayStepDoes(w, op);
    }
  }
}
