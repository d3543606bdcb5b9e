/**
 * Deferred against immediate deletion of columns: after every operation of a transaction, commit
 * would give what recovery would give, exactly if no operation reuses what is to be removed.
 */
module DeferralExact {
  import opened Wrappers
  import opened Renames
  import opened Columns
  import opened Deferral

  // ------------------------------------------------------------------------------------
  // Renaming
  // ------------------------------------------------------------------------------------

  /**
   * The new name is not to be removed; or the table has no column to rename, and the schema none or
   * one behind the column to be removed.
   */
  predicate PairOk(cols: seq<Col>, ids: Ids, deleted: set<string>, p: Pair) {
    || p.new_ !in deleted
    || (p.old_ !in ids
        && var f := Find(cols, p.old_, true, 0);
          f.None? || Find(cols, p.new_, false, 0).None? || Find(cols, p.new_, false, 0).value < f.value)
  }

  /** The type after the first k renames. */
  function Part(v: VType, ps: seq<Pair>, k: nat): (r: VType)
    requires k <= |ps|
  {
    v.(cols := RenameCols(v.cols, ps, k), ids := MoveAll(v.ids, ps, k))
  }

  predicate PairOkAt(x: Deferred, ps: seq<Pair>, i: nat)
    requires i < |ps|
  {
    PairOk(Part(x.v, ps, i).cols, Part(x.v, ps, i).ids, x.deleted, ps[i])
  }

  predicate RenameOk(x: Deferred, ps: seq<Pair>) { forall i: nat | i < |ps| :: PairOkAt(x, ps, i) }

  lemma {:induction false} StripSet(q: Slots, j: nat, o: Option<string>, names: set<string>)
    requires j < |q| && !(q[j].Some? && q[j].value in names) && !(o.Some? && o.value in names)
    ensures var a := |Strip(q[..j], names)|;
      a < |Strip(q, names)| && Strip(q, names)[a] == q[j] && Strip(q[j := o], names) == Strip(q, names)[a := o]
  {
    var n := |q| - 1;
    if j == n {
      assert q[j := o][..n] == q[..n];
    } else {
      var p := q[..n];
      StripSet(p, j, o, names);
      assert q[j := o][..n] == p[j := o] && p[..j] == q[..j];
    }
  }

  /** The table's part of one rename. */
  lemma MoveTracks(v: VType, w: VType, q: Slots, deleted: set<string>, p: Pair)
    requires Rep(v.ids, v.width, q) && Rep(w.ids, w.width, Strip(q, deleted))
    requires p.old_ !in deleted && (p.old_ in v.ids ==> p.new_ !in deleted)
    ensures Rep(Move(v.ids, p), v.width, MoveSlot(q, v.ids, p))
    ensures Rep(Move(w.ids, p), w.width, Strip(MoveSlot(q, v.ids, p), deleted))
  {
    RepMove(v.ids, v.width, q, p);
    RepMove(w.ids, w.width, Strip(q, deleted), p);
    TrackedIds(v.ids, v.width, w.ids, w.width, q, deleted, p.old_);
    TrackedIds(v.ids, v.width, w.ids, w.width, q, deleted, p.new_);
    if p.old_ in v.ids {
      var j := v.ids[p.old_];
      var o := if p.new_ in v.ids && p.new_ != p.old_ then None else Some(p.new_);
      assert q[j] == Some(p.old_);
      StripSet(q, j, o, deleted);
    }
  }

  /** The schema's part of one rename. */
  lemma RenameAlive(cols: seq<Col>, p: Pair)
    ensures Alive(RenameCol(cols, p)) == RenameCol(Alive(cols), p)
  {
    FindAlive(cols, p.old_);
    var f := Find(cols, p.old_, true, 0);
    if f.Some? { AliveChange(cols, f.value, cols[f.value].(name := p.new_)); }
  }

  lemma RenameMarked(cols: seq<Col>, ids: Ids, deleted: set<string>, p: Pair)
    requires Marked(cols, deleted) && PairOk(cols, ids, deleted, p)
    ensures Marked(RenameCol(cols, p), deleted)
  {
    var f := Find(cols, p.old_, true, 0);
    if f.Some? {
      var r := RenameCol(cols, p);
      forall j: nat | j < |r| && r[j].dead
        ensures r[j].name in deleted && forall i | 0 <= i < j :: r[i].name != r[j].name
      {
        assert r[j] == cols[j];
        if p.new_ == r[j].name { FindFirst(cols, p.new_, false, 0, j); }
      }
      forall d | d in deleted ensures exists j :: 0 <= j < |r| && r[j].dead && r[j].name == d {
        var j := DeadAt(cols, deleted, d);
        assert r[j] == cols[j];
      }
    }
  }

  lemma PairTracks(x: Deferred, w: VType, q: Slots, p: Pair) returns (r: Slots)
    requires Tracks(x, w, q) && p.old_ !in x.deleted && PairOk(x.v.cols, x.v.ids, x.deleted, p)
    ensures Tracks(Deferred(x.v.(cols := RenameCol(x.v.cols, p), ids := Move(x.v.ids, p)), x.deleted),
                   w.(cols := RenameCol(w.cols, p), ids := Move(w.ids, p)), r)
  {
    r := MoveSlot(q, x.v.ids, p);
    MoveTracks(x.v, w, q, x.deleted, p);
    RenameAlive(x.v.cols, p);
    RenameMarked(x.v.cols, x.v.ids, x.deleted, p);
  }

  lemma {:induction false} PartTracks(x: Deferred, w: VType, q: Slots, ps: seq<Pair>, k: nat) returns (r: Slots)
    requires k <= |ps| && Tracks(x, w, q) && forall i | 0 <= i < |ps| :: ps[i].old_ !in x.deleted
    requires forall i: nat | i < k :: PairOkAt(x, ps, i)
    ensures Tracks(Deferred(Part(x.v, ps, k), x.deleted), Part(w, ps, k), r)
  {
    if k == 0 {
      r := q;
    } else {
      r := PartTracks(x, w, q, ps, k - 1);
      assert PairOkAt(x, ps, k - 1);
      r := PairTracks(Deferred(Part(x.v, ps, k - 1), x.deleted), Part(w, ps, k - 1), r, ps[k - 1]);
    }
  }

  /** A rename accepted by the transaction is accepted in recovery, and the other way round. */
  lemma SameRename(x: Deferred, w: VType, q: Slots, ps: seq<Pair>)
    requires Tracks(x, w, q) && forall i | 0 <= i < |ps| :: ps[i].old_ !in x.deleted
    ensures TryRename(x.v, ps).Some? <==> TryRename(w, ps).Some?
  {
    forall i | 0 <= i < |ps| ensures Has(x.v, ps[i].old_) <==> Has(w, ps[i].old_) { SameHas(x, w, q, ps[i].old_); }
  }

  lemma OldsStay(x: Deferred, w: VType, q: Slots, ps: seq<Pair>)
    requires Tracks(x, w, q) && TryRename(x.v, ps).Some?
    ensures forall i | 0 <= i < |ps| :: ps[i].old_ !in x.deleted
  {
    forall i | 0 <= i < |ps| ensures ps[i].old_ !in x.deleted { HasIsNotDeleted(x, w, q, ps[i].old_); }
  }

  lemma RenameKeeps(x: Deferred, w: VType, q: Slots, ps: seq<Pair>, strict: bool) returns (r: Slots)
    requires Tracks(x, w, q) && TryRename(x.v, ps).Some? && RenameOk(x, ps)
    ensures Tracks(LiveStep(x, Rename(ps, strict)), ReplayStep(w, Rename(ps, strict)), r)
  {
    OldsStay(x, w, q, ps);
    SameRename(x, w, q, ps);
    r := PartTracks(x, w, q, ps, |ps|);
  }

  lemma {:induction false} DropAllForgets(v: VType, names: seq<string>, i: nat)
    requires i < |names|
    ensures names[i] !in DropAll(v, names).ids
  {
    var n := |names| - 1;
    if i < n {
      DropAllForgets(v, names[..n], i);
    }
  }

  /** A column in front of a deleted one, under its name, stays there. */
  lemma {:induction false} ShadowKeeps(cols: seq<Col>, ps: seq<Pair>, i: nat, k: nat, d: string)
    requires i <= k <= |ps| && Shadowed(RenameCols(cols, ps, i), d) && forall j | 0 <= j < |ps| :: ps[j].old_ != d
    ensures Shadowed(RenameCols(cols, ps, k), d)
    decreases k
  {
    if i < k {
      ShadowKeeps(cols, ps, i, k - 1, d);
      var c, e := RenameCols(cols, ps, k - 1), RenameCols(cols, ps, k);
      var a, b :| 0 <= a < b < |c| && c[a].name == d && c[b].dead && c[b].name == d;
      assert e[a] == c[a] && e[b] == c[b];
    }
  }

  /** The table of recovery gets the name, and commit removes it. */
  lemma NameIsLost(x: Deferred, w: VType, q: Slots, ps: seq<Pair>, i: nat, v: VType, order: seq<string>)
    requires i < |ps| && Tracks(Deferred(Part(x.v, ps, i), x.deleted), Part(w, ps, i), q)
    requires forall j | 0 <= j < |ps| :: ps[j].old_ !in x.deleted
    requires ps[i].new_ in x.deleted && ps[i].old_ in Part(x.v, ps, i).ids && Listing(order, x.deleted)
    ensures ps[i].new_ in RenameAll(w, ps).ids && ps[i].new_ !in DropAll(v, order).ids
  {
    var d := ps[i].new_;
    var v', w' := Part(x.v, ps, i), Part(w, ps, i);
    TrackedIds(v'.ids, v'.width, w'.ids, w'.width, q, x.deleted, ps[i].old_);
    assert d in MoveAll(w.ids, ps, i + 1);
    MoveKeeps(w.ids, ps, i + 1, |ps|, d);
    assert d in Elems(order);
    var k :| 0 <= k < |order| && order[k] == d;
    DropAllForgets(v, order, k);
  }

  lemma ColumnStays(x: Deferred, w: VType, q: Slots, ps: seq<Pair>, i: nat, k: nat, v: VType, order: seq<string>)
    requires i < k <= |ps| && Tracks(Deferred(Part(x.v, ps, i), x.deleted), Part(w, ps, i), q)
    requires forall j | 0 <= j < |ps| :: ps[j].old_ !in x.deleted
    requires ps[i].new_ in x.deleted && ps[i].old_ !in Part(x.v, ps, i).ids && Listing(order, x.deleted)
    requires !PairOk(Part(x.v, ps, i).cols, Part(x.v, ps, i).ids, x.deleted, ps[i])
    requires v.cols == RenameCols(x.v.cols, ps, k)
    ensures HasDead(DropAll(v, order).cols, ps[i].new_)
  {
    var d := ps[i].new_;
    var c, e := RenameCols(x.v.cols, ps, i), RenameCols(x.v.cols, ps, i + 1);
    var f := Find(c, ps[i].old_, true, 0).value;
    var j := DeadAt(c, x.deleted, d);
    assert e[f].name == d && e[j] == c[j];
    ShadowKeeps(x.v.cols, ps, i + 1, k, d);
    DropAllMissesShadowed(v, order, d);
  }

  lemma {:induction false} FirstBad(x: Deferred, ps: seq<Pair>, n: nat) returns (i: nat)
    requires n <= |ps| && exists j: nat :: j < n && !PairOkAt(x, ps, j)
    ensures i < n && !PairOkAt(x, ps, i) && forall j: nat | j < i :: PairOkAt(x, ps, j)
  {
    i := n - 1;
    if j: nat :| j < n - 1 && !PairOkAt(x, ps, j) { i := FirstBad(x, ps, n - 1); }
  }

  lemma RenamedAllowed(x: Deferred, ps: seq<Pair>, k: nat, v: VType, order: seq<string>)
    requires Marked(x.v.cols, x.deleted) && KeyStays(x.v, x.deleted) && Listing(order, x.deleted)
    requires k <= |ps| && v.cols == RenameCols(x.v.cols, ps, k) && v.pk == x.v.pk
    ensures Commit(Deferred(v, x.deleted), order) == DropAll(v, order)
  {
    RenameLive(x.v.cols, ps, k);
    var y := Deferred(v, x.deleted);
    forall d | d in x.deleted ensures exists j :: 0 <= j < |y.v.cols| && y.v.cols[j].name == d {
      var j := DeadAt(x.v.cols, x.deleted, d);
      assert y.v.cols[j].name == d;
    }
    DropIsAllowed(y, order);
  }

  /** Renaming reuses a name to be removed; it may have stopped on the way, with whatever in the table. */
  lemma RenameBreaksAt(x: Deferred, w: VType, q: Slots, ps: seq<Pair>, i: nat, k: nat, v: VType, order: seq<string>)
    requires Tracks(x, w, q) && Listing(order, x.deleted) && forall j | 0 <= j < |ps| :: ps[j].old_ !in x.deleted
    requires i < k <= |ps| && !PairOkAt(x, ps, i) && forall j: nat | j < i :: PairOkAt(x, ps, j)
    requires v.cols == RenameCols(x.v.cols, ps, k)
    ensures DropAll(v, order) != RenameAll(w, ps)
  {
    var r := PartTracks(x, w, q, ps, i);
    if ps[i].old_ in Part(x.v, ps, i).ids {
      NameIsLost(x, w, r, ps, i, v, order);
    } else {
      ColumnStays(x, w, r, ps, i, k, v, order);
      AliveLive(x.v.cols);
      RenameLive(w.cols, ps, |ps|);
    }
  }

  lemma RenameBreaks(x: Deferred, w: VType, q: Slots, ps: seq<Pair>, strict: bool, order: seq<string>)
    requires Tracks(x, w, q) && TryRename(x.v, ps).Some? && !RenameOk(x, ps) && Listing(order, x.deleted)
    ensures Commit(LiveStep(x, Rename(ps, strict)), order) != ReplayStep(w, Rename(ps, strict))
  {
    OldsStay(x, w, q, ps);
    SameRename(x, w, q, ps);
    var i := FirstBad(x, ps, |ps|);
    RenamedAllowed(x, ps, |ps|, RenameAll(x.v, ps), order);
    RenameBreaksAt(x, w, q, ps, i, |ps|, RenameAll(x.v, ps), order);
  }

  // ------------------------------------------------------------------------------------
  // Any operation
  // ------------------------------------------------------------------------------------

  /** The operation does not reuse what is to be removed. */
  predicate StepOk(x: Deferred, op: Op) {
    Do(x.v, op).Some? ==>
      match op
      case Add(news, _) => AddOk(x, news)
      case Rename(ps, _) => TryRename(x.v, ps).Some? ==> RenameOk(x, ps)
      case Delete(names) => DeleteOk(x, names)
      case Set(col, body) => SetOk(x.v, col, body)
  }

  /** Recovery after the operation's record, if there is one. */
  function ReplayOf(x: Deferred, w: VType, op: Op): (r: VType) {
    if Logged(x, op) then ReplayStep(w, op) else w
  }

  lemma RefusedTwice(x: Deferred, w: VType, q: Slots, op: Op)
    requires Tracks(x, w, q) && if op.Rename? then TryRename(x.v, op.ps).None? else Do(x.v, op).None?
    ensures ReplayOf(x, w, op) == w && LiveStep(x, op) == x
  {
    match op
    case Add(news, strict) => SameConflict(x, w, q, news);
    case Rename(ps, _) => if Logged(x, op) { SameRename(x, w, q, ps); }
    case Delete(_) =>
    case Set(_, _) =>
  }

  lemma StepKeeps(x: Deferred, w: VType, q: Slots, op: Op) returns (r: Slots)
    requires Tracks(x, w, q) && StepOk(x, op)
    ensures Tracks(LiveStep(x, op), ReplayOf(x, w, op), r)
  {
    r := q;
    if !op.Rename? && Do(x.v, op).None? {
      RefusedTwice(x, w, q, op);
    } else {
      match op
      case Add(news, strict) => r := AddKeeps(x, w, q, news, strict);
      case Rename(ps, strict) =>
        if TryRename(x.v, ps).Some? {
          OldsStay(x, w, q, ps);
          r := RenameKeeps(x, w, q, ps, strict);
        } else {
          RefusedTwice(x, w, q, op);
        }
      case Delete(names) =>
        DeleteReplayed(x, w, q, names);
        HiddenTracks(x, w, q, names);
      case Set(col, body) => SetExact(x, w, q, col, body);
    }
  }

  lemma StepBreaks(x: Deferred, w: VType, q: Slots, op: Op, order: seq<string>)
    requires Tracks(x, w, q) && !StepOk(x, op) && Listing(order, LiveStep(x, op).deleted)
    ensures Commit(LiveStep(x, op), order) != ReplayOf(x, w, op)
  {
    match op
    case Add(news, strict) => AddBreaks(x, w, q, news, strict, order);
    case Rename(ps, strict) =>
      OldsStay(x, w, q, ps);
      RenameBreaks(x, w, q, ps, strict, order);
    case Delete(names) =>
      DeleteReplayed(x, w, q, names);
      DeleteBreaks(x, w, q, names);
      HiddenMarked(x, names);
      CommitPurges(Hidden(x, names), order);
    case Set(col, body) =>
      SetExact(x, w, q, col, body);
      CommitPurges(LiveStep(x, op), order);
  }

  lemma {:induction false} SomeOrder(names: set<string>) returns (order: seq<string>)
    ensures Listing(order, names)
  {
    if names == {} {
      order := [];
    } else {
      var d :| d in names;
      var p := SomeOrder(names - {d});
      order := p + [d];
      assert Elems(order) == names by { ElemsStep(order); assert order[..|p|] == p; }
      forall i | 0 <= i < |p| ensures p[i] != d { assert p[i] in Elems(p); }
    }
  }

  /**
   * One operation from a state where recovery follows the transaction: committing after it gives
   * what recovery then has exactly if the operation does not reuse what is to be removed.
   */
  lemma StepExact(x: Deferred, w: VType, q: Slots, op: Op)
    requires Tracks(x, w, q)
    ensures Agree(LiveStep(x, op), ReplayOf(x, w, op)) <==> StepOk(x, op)
  {
    var y := LiveStep(x, op);
    if StepOk(x, op) {
      var r := StepKeeps(x, w, q, op);
      TracksAgree(y, ReplayOf(x, w, op), r);
    } else {
      var order := SomeOrder(y.deleted);
      StepBreaks(x, w, q, op, order);
    }
  }

  /** Recovery follows the transaction. */
  ghost predicate Followed(x: Deferred, w: VType) { exists q :: Tracks(x, w, q) }

  lemma FollowedStart(v: VType)
    requires Valid(v) && AllLive(v.cols)
    ensures Followed(Deferred(v, {}), v)
  {
    var q := StartTracks(v);
  }

  lemma FollowedStep(x: Deferred, w: VType, op: Op)
    requires Followed(x, w) && StepOk(x, op)
    ensures Followed(LiveStep(x, op), ReplayOf(x, w, op))
  {
    var q :| Tracks(x, w, q);
    var r := StepKeeps(x, w, q, op);
  }

  lemma FollowedBreaks(x: Deferred, w: VType, op: Op, order: seq<string>)
    requires Followed(x, w) && !StepOk(x, op) && Listing(order, LiveStep(x, op).deleted)
    ensures Commit(LiveStep(x, op), order) != ReplayOf(x, w, op)
  {
    var q :| Tracks(x, w, q);
    StepBreaks(x, w, q, op, order);
  }

  lemma FollowedCommit(x: Deferred, w: VType, order: seq<string>)
    requires Followed(x, w) && Listing(order, x.deleted)
    ensures Commit(x, order) == w
  {
    var q :| Tracks(x, w, q);
    CommitIs(x, w, q, order);
  }

  // ------------------------------------------------------------------------------------
  // Whole transactions
  // ------------------------------------------------------------------------------------

  /** The transaction after the first k operations. */
  function LiveAfter(v: VType, ops: seq<Op>, k: nat): (r: Deferred)
    requires k <= |ops|
  {
    if k == 0 then Deferred(v, {}) else LiveStep(LiveAfter(v, ops, k - 1), ops[k - 1])
  }

  /** Recovery after the records of the first k operations. */
  function ReplayAfter(v: VType, ops: seq<Op>, k: nat): (r: VType)
    requires k <= |ops|
  {
    if k == 0 then v else ReplayOf(LiveAfter(v, ops, k - 1), ReplayAfter(v, ops, k - 1), ops[k - 1])
  }

  /** Committing after k operations would give what recovery gives. */
  ghost predicate AgreeAt(v: VType, ops: seq<Op>, k: nat)
    requires k <= |ops|
  {
    Agree(LiveAfter(v, ops, k), ReplayAfter(v, ops, k))
  }

  predicate OkAt(v: VType, ops: seq<Op>, k: nat)
    requires k < |ops|
  {
    StepOk(LiveAfter(v, ops, k), ops[k])
  }

  lemma {:induction false} AliveAll(cols: seq<Col>)
    requires AllLive(cols)
    ensures Alive(cols) == cols
  {
    if cols != [] { AliveAll(cols[..|cols| - 1]); }
  }

  lemma StartTracks(v: VType) returns (q: Slots)
    requires Valid(v) && AllLive(v.cols)
    ensures Tracks(Deferred(v, {}), v, q)
  {
    q := seq(|v.cols|, j requires 0 <= j < |v.cols| => Some(v.cols[j].name));
    StripAll(q, {});
    AliveAll(v.cols);
  }

  lemma {:induction false} AfterTracks(v: VType, ops: seq<Op>, k: nat) returns (q: Slots)
    requires Valid(v) && AllLive(v.cols) && k <= |ops| && forall i: nat | i < k :: OkAt(v, ops, i)
    ensures Tracks(LiveAfter(v, ops, k), ReplayAfter(v, ops, k), q)
  {
    if k == 0 {
      q := StartTracks(v);
    } else {
      q := AfterTracks(v, ops, k - 1);
      assert OkAt(v, ops, k - 1);
      q := StepKeeps(LiveAfter(v, ops, k - 1), ReplayAfter(v, ops, k - 1), q, ops[k - 1]);
    }
  }

  lemma AgreeNext(v: VType, ops: seq<Op>, k: nat)
    requires Valid(v) && AllLive(v.cols) && k < |ops| && forall i: nat | i < k :: OkAt(v, ops, i)
    ensures AgreeAt(v, ops, k + 1) <==> OkAt(v, ops, k)
  {
    var q := AfterTracks(v, ops, k);
    StepExact(LiveAfter(v, ops, k), ReplayAfter(v, ops, k), q, ops[k]);
  }

  lemma BeginAgrees(v: VType, ops: seq<Op>)
    requires Valid(v) && AllLive(v.cols)
    ensures AgreeAt(v, ops, 0)
  {
    var q := StartTracks(v);
    TracksAgree(Deferred(v, {}), v, q);
  }

  /**
   * Deferred deletion is immediate deletion: wherever the transaction stops, commit gives what
   * recovery gives, exactly if no operation reuses what is to be removed.
   */
  lemma DeferredExact(v: VType, ops: seq<Op>)
    requires Valid(v) && AllLive(v.cols)
    ensures (forall k: nat | k <= |ops| :: AgreeAt(v, ops, k)) <==> (forall k: nat | k < |ops| :: OkAt(v, ops, k))
  {
    var agree := (k: nat) => k <= |ops| && AgreeAt(v, ops, k);
    var ok := (k: nat) => k < |ops| && OkAt(v, ops, k);
    BeginAgrees(v, ops);
    forall k: nat | k < |ops| && (forall i: nat | i < k :: ok(i)) ensures agree(k + 1) <==> ok(k) {
      forall i: nat | i < k ensures OkAt(v, ops, i) { assert ok(i); }
      AgreeNext(v, ops, k);
    }
    Stepwise(agree, ok, |ops|);
    assert forall k: nat | k < |ops| :: ok(k) <==> OkAt(v, ops, k);
    assert forall k: nat | k <= |ops| :: agree(k) <==> AgreeAt(v, ops, k);
  }

  // ------------------------------------------------------------------------------------
  // Where the two part
  // ------------------------------------------------------------------------------------

  /** Deleting one live column: fine by itself. */
  lemma DeleteOne(v: VType, a: string, op: Op)
    requires Valid(v) && AllLive(v.cols) && a in v.ids && Some(a) != v.pk
    ensures var ops := [Delete([a]), op];
      && OkAt(v, ops, 0) && LiveAfter(v, ops, 1) == Deferred(v.(cols := SetDead(v.cols, [a], true)), {a})
  {
    var ops := [Delete([a]), op];
    FindIs(v.cols, v.ids, a);
    assert Has(v, [a][0]);
    assert LiveAfter(v, ops, 0) == Deferred(v, {});
    assert Elems([a]) == {a};
  }

  /** A column renamed into a name deleted before: commit takes the table's column away, recovery keeps it. */
  lemma RenameIntoDeletedName(v: VType, a: string, b: string)
    requires Valid(v) && AllLive(v.cols) && a != b && a in v.ids && b in v.ids && Some(a) != v.pk
    ensures !AgreeAt(v, [Delete([a]), Rename([Pair(b, a)], true)], 2)
  {
    var ps := [Pair(b, a)];
    var ops := [Delete([a]), Rename(ps, true)];
    DeleteOne(v, a, Rename(ps, true));
    var x := LiveAfter(v, ops, 1);
    Columns.SetDeadIs(v.cols, v.ids, [a], true);
    FindIs(x.v.cols, v.ids, b);
    assert Has(x.v, ps[0].old_);
    assert !PairOkAt(x, ps, 0);
    AgreeNext(v, ops, 1);
  }

  /** A content set behind a deleted column: recovery changes another column. */
  lemma SetBehindDeletedColumn(v: VType, j: nat, k: nat, body: Body)
    requires Valid(v) && AllLive(v.cols) && j < k < |v.cols| && Some(v.cols[j].name) != v.pk && v.cols[k].body != body
    requires Do(v.(cols := SetDead(v.cols, [v.cols[j].name], true)), Set(k, body)).Some?
    ensures !AgreeAt(v, [Delete([v.cols[j].name]), Set(k, body)], 2)
  {
    var a := v.cols[j].name;
    var ops := [Delete([a]), Set(k, body)];
    DeleteOne(v, a, Set(k, body));
    var x := LiveAfter(v, ops, 1);
    Columns.SetDeadIs(v.cols, v.ids, [a], true);
    assert x.v.cols[j].dead && x.v.cols[k].body == v.cols[k].body;
    AgreeNext(v, ops, 1);
  }
}
