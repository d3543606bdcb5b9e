/**
 * The property columns of one vertex type inside an update transaction: adding, renaming and
 * soft-deleting columns, changing a column's content by its id, and undoing all that.
 */
module Columns {
  import opened Wrappers
  import opened Renames

  /**
   * The primary key, which edge types do not have, the schema's columns in order, the table's map
   * from names to ids, and its number of columns.
   */
  datatype VType = VType(pk: Option<string>, cols: seq<Col>, ids: Ids, width: nat)

  datatype Op =
    | Add(news: seq<(string, Body)>, strict: bool)
    | Rename(ps: seq<Pair>, strict: bool)
    | Delete(names: seq<string>)
    | Set(col: nat, body: Body)

  datatype Undo =
    | UnAdd(names: seq<string>)
    | UnRename(ps: seq<Pair>)
    | UnDelete(names: seq<string>)
    | UnSet(col: nat, body: Body)

  datatype Step = Step(v: VType, undo: Undo)

  /** The map gives every column its position. */
  ghost predicate Indexed(cols: seq<Col>, ids: Ids) {
    && (forall j: nat | j < |cols| :: cols[j].name in ids && ids[cols[j].name] == j)
    && (forall t | t in ids :: ids[t] < |cols| && cols[ids[t]].name == t)
  }

  ghost predicate Valid(v: VType) { Indexed(v.cols, v.ids) && v.width == |v.cols| }

  // ------------------------------------------------------------------------------------
  // The schema's list
  // ------------------------------------------------------------------------------------

  /** The first column of that name from k on; with `live`, the first that is not deleted. */
  function Find(cols: seq<Col>, name: string, live: bool, k: nat): (r: Option<nat>)
    ensures r.Some? ==> k <= r.value < |cols| && cols[r.value].name == name && (live ==> !cols[r.value].dead)
    ensures r.None? ==> forall j | k <= j < |cols| :: cols[j].name != name || (live && cols[j].dead)
    decreases |cols| - k
  {
    if k >= |cols| then None
    else if cols[k].name == name && !(live && cols[k].dead) then Some(k)
    else Find(cols, name, live, k + 1)
  }

  predicate Has(v: VType, name: string) {
    Some(name) == v.pk || (Find(v.cols, name, false, 0).Some? && !v.cols[Find(v.cols, name, false, 0).value].dead)
  }

  predicate HasInternal(v: VType, name: string) { Some(name) == v.pk || Find(v.cols, name, false, 0).Some? }

  function RenameCol(cols: seq<Col>, p: Pair): (r: seq<Col>) {
    match Find(cols, p.old_, true, 0)
    case None => cols
    case Some(j) => cols[j := cols[j].(name := p.new_)]
  }

  function RenameCols(cols: seq<Col>, ps: seq<Pair>, k: nat): (r: seq<Col>)
    requires k <= |ps|
    ensures |r| == |cols|
  {
    if k == 0 then cols else RenameCol(RenameCols(cols, ps, k - 1), ps[k - 1])
  }

  function SetDead(cols: seq<Col>, names: seq<string>, dead: bool): (r: seq<Col>)
    ensures |r| == |cols|
  {
    if names == [] then cols
    else
      var c := SetDead(cols, names[..|names| - 1], dead);
      match Find(c, names[|names| - 1], false, 0)
      case None => c
      case Some(j) => c[j := c[j].(dead := dead)]
  }

  // ------------------------------------------------------------------------------------
  // Schema and table together
  // ------------------------------------------------------------------------------------

  function RenameAll(v: VType, ps: seq<Pair>): (r: VType) {
    v.(cols := RenameCols(v.cols, ps, |ps|), ids := MoveAll(v.ids, ps, |ps|))
  }

  function TryRename(v: VType, ps: seq<Pair>): (r: Option<VType>) {
    if exists i | 0 <= i < |ps| :: !Has(v, ps[i].old_) then None else Some(RenameAll(v, ps))
  }

  function AddOne(v: VType, name: string, body: Body): (r: VType) {
    VType(v.pk, v.cols + [Col(name, body, false)],
          if name in v.ids then v.ids else v.ids[name := v.width], v.width + 1)
  }

  function AddAll(v: VType, news: seq<(string, Body)>): (r: VType) {
    if news == [] then v
    else AddOne(AddAll(v, news[..|news| - 1]), news[|news| - 1].0, news[|news| - 1].1)
  }

  /** delete_column: the ids behind the removed one move up. */
  function DropId(ids: Ids, name: string): (r: Ids) {
    if name !in ids then ids
    else map t | t in ids && t != name :: if ids[t] > ids[name] then (ids[t] - 1) as nat else ids[t]
  }

  function DropOne(v: VType, name: string): (r: VType) {
    VType(v.pk,
          match Find(v.cols, name, false, 0) case None => v.cols case Some(j) => v.cols[..j] + v.cols[j + 1..],
          DropId(v.ids, name),
          if name in v.ids && v.width > 0 then v.width - 1 else v.width)
  }

  function DropAll(v: VType, names: seq<string>): (r: VType) {
    if names == [] then v else DropOne(DropAll(v, names[..|names| - 1]), names[|names| - 1])
  }

  /** Removing columns for good; None where a name is unknown or the primary key. */
  function TryDrop(v: VType, names: seq<string>): (r: Option<VType>) {
    if exists i | 0 <= i < |names| :: !HasInternal(v, names[i]) || Some(names[i]) == v.pk then None
    else Some(DropAll(v, names))
  }

  function Names(news: seq<(string, Body)>): (r: seq<string>)
    ensures |r| == |news| && forall i | 0 <= i < |news| :: r[i] == news[i].0
  {
    seq(|news|, i requires 0 <= i < |news| => news[i].0)
  }

  predicate Conflict(v: VType, news: seq<(string, Body)>) {
    exists i | 0 <= i < |news| :: Has(v, news[i].0)
  }

  function LiveCount(cols: seq<Col>): (n: nat) {
    if cols == [] then 0 else LiveCount(cols[..|cols| - 1]) + (if cols[|cols| - 1].dead then 0 else 1)
  }

  /** A column to be renamed was deleted in the transaction, which is an error in any case. */
  predicate NamesDeleted(v: VType, ps: seq<Pair>) {
    exists i | 0 <= i < |ps| :: HasInternal(v, ps[i].old_) && !Has(v, ps[i].old_)
  }

  /** None: refused, nothing changed and nothing recorded.  A tolerated error changes nothing, but is recorded. */
  function Do(v: VType, op: Op): (r: Option<Step>) {
    match op
    case Add(news, strict) =>
      if !Conflict(v, news) then Some(Step(AddAll(v, news), UnAdd(Names(news))))
      else if strict then None
      else Some(Step(v, UnAdd(Names(news))))
    case Rename(ps, strict) =>
      (match TryRename(v, ps)
       case Some(w) => Some(Step(w, UnRename(ps)))
       case None => if strict || NamesDeleted(v, ps) then None else Some(Step(v, UnRename(ps))))
    case Delete(names) =>
      if exists i | 0 <= i < |names| :: !Has(v, names[i]) || Some(names[i]) == v.pk then None
      else Some(Step(v.(cols := SetDead(v.cols, names, true)), UnDelete(names)))
    case Set(col, body) =>
      if col >= |v.cols| || v.cols[col].dead || col >= LiveCount(v.cols) then None
      else Some(Step(v.(cols := v.cols[col := v.cols[col].(body := body)]), UnSet(col, v.cols[col].body)))
  }

  /** None where the original throws. */
  function Undone(v: VType, u: Undo): (r: Option<VType>) {
    match u
    case UnAdd(names) => TryDrop(v, names)
    case UnRename(ps) => TryRename(v, Swap(ps))
    case UnDelete(names) => Some(v.(cols := SetDead(v.cols, names, false)))
    case UnSet(col, body) =>
      if col < |v.cols| then Some(v.(cols := v.cols[col := v.cols[col].(body := body)])) else None
  }

  // ------------------------------------------------------------------------------------
  // Renames
  // ------------------------------------------------------------------------------------

  /** The primary key is not renamed, and a rename that is carried out renames each column once. */
  predicate Plain(v: VType, op: Op) {
    op.Rename? ==>
      && (forall i | 0 <= i < |op.ps| :: Some(op.ps[i].old_) != v.pk)
      && (TryRename(v, op.ps).Some? ==> DistinctOlds(op.ps))
  }

  lemma FindIs(cols: seq<Col>, ids: Ids, name: string)
    requires Indexed(cols, ids)
    ensures Find(cols, name, false, 0) == if name in ids then Some(ids[name]) else None
  {
  }

  lemma FindNone(cols: seq<Col>, ids: Ids, name: string)
    requires Indexed(cols, ids) && name !in ids
    ensures Find(cols, name, true, 0).None?
  {
  }

  lemma OldsKnown(v: VType, ps: seq<Pair>)
    requires Valid(v) && TryRename(v, ps).Some? && forall i | 0 <= i < |ps| :: Some(ps[i].old_) != v.pk
    ensures OldsIn(v.ids, ps) && OneNamePerId(v.ids)
    ensures forall i | 0 <= i < |ps| :: ps[i].old_ in v.ids && !v.cols[v.ids[ps[i].old_]].dead
  {
    forall i | 0 <= i < |ps| ensures ps[i].old_ in v.ids && !v.cols[v.ids[ps[i].old_]].dead {
      assert Has(v, ps[i].old_);
      FindIs(v.cols, v.ids, ps[i].old_);
    }
  }

  /** Only the column itself carries the name its rename looks for. */
  lemma OnlyOwnName(ids: Ids, ps: seq<Pair>, k: nat, a: string)
    requires k < |ps| && DistinctOlds(ps) && OldsIn(ids, ps) && Unchained(ids, ps) && a in ids
    ensures Target(ps, k, a) == ps[k].old_ <==> a == ps[k].old_
  {
    if i: nat :| i < |ps| && ps[i].old_ == a {
      TargetOfOld(ps, k, i);
    } else {
      TargetOfOther(ps, k, a);
    }
  }

  /** Renaming column by column is renaming every name to its target. */
  lemma {:induction false} RenameColsAre(cols: seq<Col>, ids: Ids, ps: seq<Pair>, k: nat)
    requires k <= |ps| && Indexed(cols, ids) && DistinctOlds(ps) && OldsIn(ids, ps) && Unchained(ids, ps)
    requires forall i | 0 <= i < |ps| :: ps[i].old_ in ids && !cols[ids[ps[i].old_]].dead
    ensures forall j | 0 <= j < |cols| :: RenameCols(cols, ps, k)[j] == cols[j].(name := Target(ps, k, cols[j].name))
  {
    if k > 0 {
      RenameColsAre(cols, ids, ps, k - 1);
      var c, p := RenameCols(cols, ps, k - 1), ps[k - 1];
      forall j: nat | j < |cols| ensures c[j].name == p.old_ <==> j == ids[p.old_] {
        OnlyOwnName(ids, ps, k - 1, cols[j].name);
      }
      assert Find(c, p.old_, true, 0) == Some(ids[p.old_]);
    }
  }

  lemma RenamedValid(v: VType, ps: seq<Pair>)
    requires Valid(v) && DistinctOlds(ps) && OldsIn(v.ids, ps) && OneNamePerId(v.ids) && Unchained(v.ids, ps)
    requires forall i | 0 <= i < |ps| :: ps[i].old_ in v.ids && !v.cols[v.ids[ps[i].old_]].dead
    ensures Valid(RenameAll(v, ps))
  {
    var w, n := RenameAll(v, ps), |ps|;
    RenameColsAre(v.cols, v.ids, ps, n);
    UnchainedFree(v.ids, ps, n);
    Moved(v.ids, ps, n);
    forall j: nat | j < |w.cols| ensures w.cols[j].name in w.ids && w.ids[w.cols[j].name] == j {
      assert v.cols[j].name in v.ids;
    }
    forall t | t in w.ids ensures w.ids[t] < |w.cols| && w.cols[w.ids[t]].name == t {
      assert Comes(v.ids, ps, n, t);
      var a :| a in v.ids && Target(ps, n, a) == t;
    }
  }

  lemma NewNamesLive(v: VType, ps: seq<Pair>, i: nat)
    requires i < |ps| && Valid(v) && DistinctOlds(ps) && OldsIn(v.ids, ps) && OneNamePerId(v.ids)
    requires Unchained(v.ids, ps)
    requires forall j | 0 <= j < |ps| :: ps[j].old_ in v.ids && !v.cols[v.ids[ps[j].old_]].dead
    ensures var w := RenameAll(v, ps);
      Valid(w) && ps[i].new_ in w.ids && !w.cols[w.ids[ps[i].new_]].dead && Has(w, ps[i].new_)
  {
    var w := RenameAll(v, ps);
    RenamedValid(v, ps);
    RenameColsAre(v.cols, v.ids, ps, |ps|);
    TargetOfOld(ps, |ps|, i);
    var j := v.ids[ps[i].old_];
    assert w.cols[j].name == ps[i].new_;
    FindIs(w.cols, w.ids, ps[i].new_);
  }

  /** Unchained renames are undone by the swapped list. */
  lemma RenameUndone(v: VType, ps: seq<Pair>)
    requires Valid(v) && Plain(v, Rename(ps, true)) && TryRename(v, ps).Some? && Unchained(v.ids, ps)
    ensures Valid(RenameAll(v, ps)) && TryRename(RenameAll(v, ps), Swap(ps)) == Some(v)
  {
    OldsKnown(v, ps);
    RenamedValid(v, ps);
    SwapUnchained(v.ids, ps);
    var w, qs := RenameAll(v, ps), Swap(ps);
    forall i: nat | i < |ps| ensures qs[i].old_ in w.ids && !w.cols[w.ids[qs[i].old_]].dead && Has(w, qs[i].old_) {
      NewNamesLive(v, ps, i);
    }
    RenameColsAre(v.cols, v.ids, ps, |ps|);
    RenameColsAre(w.cols, w.ids, qs, |qs|);
    UnchainedComesBack(v.ids, ps);
    forall j | 0 <= j < |v.cols| ensures RenameCols(w.cols, qs, |qs|)[j] == v.cols[j] {
      TargetBack(v.ids, ps, v.cols[j].name);
    }
    assert RenameCols(w.cols, qs, |qs|) == v.cols;
  }

  /** The undo of a rename restores schema and table exactly if the renames are unchained. */
  lemma RenameUndoExact(v: VType, ps: seq<Pair>)
    requires Valid(v) && Plain(v, Rename(ps, true)) && TryRename(v, ps).Some?
    ensures TryRename(RenameAll(v, ps), Swap(ps)) == Some(v) <==> Unchained(v.ids, ps)
  {
    OldsKnown(v, ps);
    ThereAndBackExact(v.ids, ps);
    if Unchained(v.ids, ps) { RenameUndone(v, ps); }
  }

  // A tolerated rename of an unknown column changes nothing, but its undo renames back all the same.

  /** Renaming back finds nothing to rename: the name itself, or a primary key that is no column. */
  predicate IdlePair(v: VType, p: Pair) {
    (p.new_ == p.old_ && Has(v, p.new_)) || (Some(p.new_) == v.pk && p.new_ !in v.ids)
  }

  predicate Idle(v: VType, ps: seq<Pair>) { forall i | 0 <= i < |ps| :: IdlePair(v, ps[i]) }

  lemma {:induction false} IdleBack(v: VType, ps: seq<Pair>, k: nat)
    requires Valid(v) && k <= |ps| && forall i | 0 <= i < k :: IdlePair(v, ps[i])
    ensures RenameCols(v.cols, Swap(ps), k) == v.cols && MoveAll(v.ids, Swap(ps), k) == v.ids
  {
    if k > 0 {
      IdleBack(v, ps, k - 1);
      var p := ps[k - 1];
      if p.new_ in v.ids {
        assert Move(v.ids, Pair(p.old_, p.old_)) == v.ids;
      } else {
        FindNone(v.cols, v.ids, p.new_);
      }
    }
  }

  /** The first pair that is not idle takes a name away for good. */
  lemma BusyPairShows(v: VType, ps: seq<Pair>, i: nat)
    requires Valid(v) && i < |ps| && (forall j | 0 <= j < i :: IdlePair(v, ps[j])) && !IdlePair(v, ps[i])
    requires forall j | 0 <= j < |ps| :: Some(ps[j].old_) != v.pk && Has(v, ps[j].new_)
    ensures MoveAll(v.ids, Swap(ps), |ps|) != v.ids
  {
    IdleBack(v, ps, i);
    FindIs(v.cols, v.ids, ps[i].new_);
    FindIs(v.cols, v.ids, ps[i].old_);
    BusyMoveShows(v.ids, Swap(ps), i);
  }

  lemma {:induction false} FirstBusy(v: VType, ps: seq<Pair>, n: nat) returns (i: nat)
    requires n <= |ps| && exists j: nat :: j < n && !IdlePair(v, ps[j])
    ensures i < n && !IdlePair(v, ps[i]) && forall j | 0 <= j < i :: IdlePair(v, ps[j])
  {
    i := n - 1;
    if j: nat :| j < n - 1 && !IdlePair(v, ps[j]) { i := FirstBusy(v, ps, n - 1); }
  }

  /** The record of a tolerated rename restores exactly if renaming back finds nothing to rename. */
  lemma ToleratedUndoExact(v: VType, ps: seq<Pair>)
    requires Valid(v) && forall i | 0 <= i < |ps| :: Some(ps[i].old_) != v.pk
    ensures TryRename(v, Swap(ps)) == Some(v) <==> Idle(v, ps)
  {
    if Idle(v, ps) {
      IdleBack(v, ps, |ps|);
      forall i | 0 <= i < |ps| ensures Has(v, Swap(ps)[i].old_) { assert IdlePair(v, ps[i]); }
    } else if TryRename(v, Swap(ps)).Some? {
      forall i | 0 <= i < |ps| ensures Has(v, ps[i].new_) { assert Has(v, Swap(ps)[i].old_); }
      var i := FirstBusy(v, ps, |ps|);
      BusyPairShows(v, ps, i);
    }
  }

  /** Renaming the primary key is accepted, does nothing, and makes the undo throw. */
  lemma PrimaryKeyRename(v: VType, key: string, name: string)
    requires Valid(v) && v.pk == Some(key) && key !in v.ids && name !in v.ids && name != key
    ensures TryRename(v, [Pair(key, name)]) == Some(v) && TryRename(v, Swap([Pair(key, name)])).None?
  {
    var ps := [Pair(key, name)];
    FindIs(v.cols, v.ids, name);
    assert Has(v, ps[0].old_) && !Has(v, Swap(ps)[0].old_);
    FindNone(v.cols, v.ids, key);
    assert RenameCols(v.cols, ps, 0) == v.cols && MoveAll(v.ids, ps, 0) == v.ids;
  }

  // ------------------------------------------------------------------------------------
  // Adding columns
  // ------------------------------------------------------------------------------------

  /** New names, each once, none of them in use, not even by a deleted column. */
  predicate Fresh(v: VType, news: seq<(string, Body)>) {
    && (forall i, j | 0 <= i < j < |news| :: news[i].0 != news[j].0)
    && (forall i | 0 <= i < |news| :: news[i].0 !in v.ids && Some(news[i].0) != v.pk)
  }

  lemma FreshPrefix(v: VType, news: seq<(string, Body)>)
    requires Fresh(v, news) && news != []
    ensures Fresh(v, news[..|news| - 1])
  {
  }

  lemma {:induction false} AddedIds(v: VType, news: seq<(string, Body)>, t: string)
    ensures t in AddAll(v, news).ids <==> t in v.ids || exists i :: 0 <= i < |news| && news[i].0 == t
    ensures t in v.ids ==> AddAll(v, news).ids[t] == v.ids[t]
  {
    if news != [] {
      var n := |news| - 1;
      AddedIds(v, news[..n], t);
      if t in AddAll(v, news[..n]).ids && t !in v.ids {
        var i :| 0 <= i < n && news[..n][i].0 == t;
        assert news[i].0 == t;
      }
      if i :| 0 <= i < |news| && news[i].0 == t {
        if i < n { assert news[..n][i].0 == t; }
      }
    }
  }

  lemma AddOneValid(v: VType, name: string, body: Body)
    requires Valid(v) && name !in v.ids
    ensures Valid(AddOne(v, name, body))
  {
    var w := AddOne(v, name, body);
    assert forall j: nat | j < |v.cols| :: w.cols[j] == v.cols[j] && v.cols[j].name in v.ids;
    assert Indexed(w.cols, w.ids);
  }

  lemma AddOneBack(v: VType, name: string, body: Body)
    requires Valid(v) && name !in v.ids
    ensures Valid(AddOne(v, name, body)) && DropOne(AddOne(v, name, body), name) == v
  {
    var w := AddOne(v, name, body);
    AddOneValid(v, name, body);
    FindIs(w.cols, w.ids, name);
    assert w.cols[..|v.cols|] + w.cols[|v.cols| + 1..] == v.cols;
    assert DropId(w.ids, name) == v.ids;
  }

  lemma {:induction false} AddedValid(v: VType, news: seq<(string, Body)>)
    requires Valid(v) && Fresh(v, news)
    ensures Valid(AddAll(v, news)) && AddAll(v, news).pk == v.pk
  {
    if news != [] {
      var n := |news| - 1;
      FreshPrefix(v, news);
      AddedValid(v, news[..n]);
      AddedIds(v, news[..n], news[n].0);
      AddOneBack(AddAll(v, news[..n]), news[n].0, news[n].1);
    }
  }

  // ------------------------------------------------------------------------------------
  // Removing columns for good
  // ------------------------------------------------------------------------------------

  /** A consistent type is determined by its key and its columns. */
  lemma ValidIsUnique(v: VType, w: VType)
    requires Valid(v) && Valid(w) && v.pk == w.pk && v.cols == w.cols
    ensures v == w
  {
    forall t | t in v.ids ensures t in w.ids && w.ids[t] == v.ids[t] { assert v.cols[v.ids[t]].name == t; }
    forall t | t in w.ids ensures t in v.ids { assert w.cols[w.ids[t]].name == t; }
    assert v.ids == w.ids;
  }

  /** The columns with other names. */
  function Keep(cols: seq<Col>, names: set<string>): (r: seq<Col>) {
    if cols == [] then []
    else Keep(cols[..|cols| - 1], names) + (if cols[|cols| - 1].name in names then [] else [cols[|cols| - 1]])
  }

  lemma {:induction false} KeepAppend(a: seq<Col>, b: seq<Col>, names: set<string>)
    ensures Keep(a + b, names) == Keep(a, names) + Keep(b, names)
  {
    if b == [] {
      assert a + b == a;
    } else {
      assert (a + b)[..|a + b| - 1] == a + b[..|b| - 1];
      KeepAppend(a, b[..|b| - 1], names);
    }
  }

  lemma {:induction false} KeepAll(cols: seq<Col>, names: set<string>)
    requires forall j | 0 <= j < |cols| :: cols[j].name !in names
    ensures Keep(cols, names) == cols
  {
    if cols != [] { KeepAll(cols[..|cols| - 1], names); }
  }

  lemma {:induction false} KeepNone(cols: seq<Col>, names: set<string>)
    requires forall j | 0 <= j < |cols| :: cols[j].name in names
    ensures Keep(cols, names) == []
  {
    if cols != [] { KeepNone(cols[..|cols| - 1], names); }
  }

  lemma {:induction false} KeepTwice(cols: seq<Col>, a: set<string>, b: set<string>)
    ensures Keep(Keep(cols, a), b) == Keep(cols, a + b)
  {
    if cols != [] {
      var c := cols[|cols| - 1];
      KeepTwice(cols[..|cols| - 1], a, b);
      KeepAppend(Keep(cols[..|cols| - 1], a), if c.name in a then [] else [c], b);
      assert Keep([c], b) == if c.name in b then [] else [c];
    }
  }

  lemma {:induction false} DropAtKeeps(cols: seq<Col>, j: nat)
    requires j < |cols| && forall k | 0 <= k < |cols| && k != j :: cols[k].name != cols[j].name
    ensures cols[..j] + cols[j + 1..] == Keep(cols, {cols[j].name})
  {
    var n := |cols| - 1;
    var p := cols[..n];
    if j == n {
      KeepAll(p, {cols[j].name});
      assert cols[..j] + cols[j + 1..] == p;
    } else {
      DropAtKeeps(p, j);
      assert cols[..j] + cols[j + 1..] == (p[..j] + p[j + 1..]) + [cols[n]];
    }
  }

  lemma AppendKeeps(a: seq<Col>, b: seq<Col>, names: set<string>)
    requires forall j | 0 <= j < |a| :: a[j].name !in names
    requires forall j | 0 <= j < |b| :: b[j].name in names
    ensures Keep(a + b, names) == a
  {
    KeepAppend(a, b, names);
    KeepAll(a, names);
    KeepNone(b, names);
  }

  /** The ids behind the removed column move up with their columns. */
  lemma DropAtIndexed(cols: seq<Col>, ids: Ids, name: string)
    requires Indexed(cols, ids) && name in ids
    ensures Indexed(cols[..ids[name]] + cols[ids[name] + 1..], DropId(ids, name))
  {
    var j := ids[name];
    var c, m := cols[..j] + cols[j + 1..], DropId(ids, name);
    forall k: nat | k < |c| ensures c[k].name in m && m[c[k].name] == k {
      var k' := if k < j then k else k + 1;
      assert c[k] == cols[k'] && cols[k'].name in ids && ids[cols[k'].name] == k';
    }
    forall t | t in m ensures m[t] < |c| && c[m[t]].name == t {
      assert cols[ids[t]].name == t;
    }
  }

  lemma DropOneKeeps(v: VType, name: string)
    requires Valid(v) && name in v.ids
    ensures Valid(DropOne(v, name)) && DropOne(v, name).pk == v.pk
    ensures DropOne(v, name).cols == Keep(v.cols, {name}) && DropOne(v, name).ids.Keys == v.ids.Keys - {name}
  {
    var j := v.ids[name];
    DropAtIndexed(v.cols, v.ids, name);
    assert DropOne(v, name) == VType(v.pk, v.cols[..j] + v.cols[j + 1..], DropId(v.ids, name), v.width - 1) by {
      FindIs(v.cols, v.ids, name);
    }
    assert v.cols[..j] + v.cols[j + 1..] == Keep(v.cols, {name}) by {
      forall k: nat | k < |v.cols| && k != j ensures v.cols[k].name != name { assert v.ids[v.cols[k].name] == k; }
      DropAtKeeps(v.cols, j);
    }
  }

  function Elems(names: seq<string>): (r: set<string>) { set t | t in names }

  lemma DropUnknown(v: VType, name: string)
    requires Valid(v) && name !in v.ids
    ensures DropOne(v, name) == v
  {
    FindIs(v.cols, v.ids, name);
  }

  lemma DropOneMore(v: VType, w: VType, gone: set<string>, n: string)
    requires Valid(w) && w.cols == Keep(v.cols, gone) && w.ids.Keys == v.ids.Keys - gone
    ensures Valid(DropOne(w, n)) && DropOne(w, n).pk == w.pk
    ensures DropOne(w, n).cols == Keep(v.cols, gone + {n}) && DropOne(w, n).ids.Keys == v.ids.Keys - (gone + {n})
  {
    DropOneOrNot(w, n);
    KeepTwice(v.cols, gone, {n});
    assert v.ids.Keys - gone - {n} == v.ids.Keys - (gone + {n});
  }

  lemma {:induction false} DropAllKeeps(v: VType, names: seq<string>)
    requires Valid(v)
    ensures Valid(DropAll(v, names)) && DropAll(v, names).pk == v.pk
    ensures DropAll(v, names).cols == Keep(v.cols, Elems(names))
    ensures DropAll(v, names).ids.Keys == v.ids.Keys - Elems(names)
  {
    if names == [] {
      KeepAll(v.cols, Elems(names));
    } else {
      var p, n := names[..|names| - 1], names[|names| - 1];
      DropAllKeeps(v, p);
      ElemsStep(names);
      DropOneMore(v, DropAll(v, p), Elems(p), n);
    }
  }

  lemma ElemsStep(names: seq<string>)
    requires names != []
    ensures Elems(names) == Elems(names[..|names| - 1]) + {names[|names| - 1]}
  {
    assert names == names[..|names| - 1] + [names[|names| - 1]];
  }

  lemma DropUnknownKeeps(v: VType, name: string)
    requires Valid(v) && name !in v.ids
    ensures DropOne(v, name) == v && Keep(v.cols, {name}) == v.cols
  {
    DropUnknown(v, name);
    forall j: nat | j < |v.cols| ensures v.cols[j].name !in {name} { assert v.cols[j].name in v.ids; }
    KeepAll(v.cols, {name});
  }

  lemma DropOneOrNot(v: VType, name: string)
    requires Valid(v)
    ensures Valid(DropOne(v, name)) && DropOne(v, name).pk == v.pk
    ensures DropOne(v, name).cols == Keep(v.cols, {name})
    ensures DropOne(v, name).ids.Keys == v.ids.Keys - {name}
  {
    if name in v.ids { DropOneKeeps(v, name); } else { DropUnknownKeeps(v, name); }
  }

  lemma {:induction false} AddedCols(v: VType, news: seq<(string, Body)>)
    ensures |AddAll(v, news).cols| == |v.cols| + |news|
    ensures AddAll(v, news).cols[..|v.cols|] == v.cols
    ensures forall i | 0 <= i < |news| :: AddAll(v, news).cols[|v.cols| + i] == Col(news[i].0, news[i].1, false)
    ensures AddAll(v, news).width == v.width + |news| && AddAll(v, news).pk == v.pk
  {
    if news != [] { AddedCols(v, news[..|news| - 1]); }
  }

  lemma AddedKeep(v: VType, news: seq<(string, Body)>)
    requires Valid(v) && Fresh(v, news)
    ensures Keep(AddAll(v, news).cols, Elems(Names(news))) == v.cols
  {
    var w, names := AddAll(v, news), Elems(Names(news));
    AddedCols(v, news);
    var tail := w.cols[|v.cols|..];
    assert w.cols == v.cols + tail;
    forall j: nat | j < |v.cols| ensures v.cols[j].name !in names { assert v.cols[j].name in v.ids; }
    forall i | 0 <= i < |tail| ensures tail[i].name in names { assert tail[i].name == Names(news)[i]; }
    AppendKeeps(v.cols, tail, names);
  }

  lemma AddedKnown(v: VType, news: seq<(string, Body)>, i: nat)
    requires Valid(v) && Fresh(v, news) && i < |news|
    ensures news[i].0 in AddAll(v, news).ids && HasInternal(AddAll(v, news), news[i].0) && !Has(v, news[i].0)
  {
    AddedValid(v, news);
    AddedIds(v, news, news[i].0);
    FindIs(AddAll(v, news).cols, AddAll(v, news).ids, news[i].0);
    FindIs(v.cols, v.ids, news[i].0);
  }

  /** New columns are removed again, wherever they went. */
  lemma AddUndone(v: VType, news: seq<(string, Body)>)
    requires Valid(v) && Fresh(v, news)
    ensures !Conflict(v, news) && TryDrop(AddAll(v, news), Names(news)) == Some(v)
  {
    var w, names := AddAll(v, news), Names(news);
    AddedCols(v, news);
    forall i: nat | i < |news| ensures names[i] in w.ids && HasInternal(w, names[i]) && !Has(v, news[i].0) {
      AddedKnown(v, news, i);
    }
    assert DropAll(w, names) == v by {
      AddedValid(v, news);
      DropAllKeeps(w, names);
      AddedKeep(v, news);
      ValidIsUnique(DropAll(w, names), v);
    }
  }

  // Adding a name in use gives the table a column without a name; the undo never removes it.

  lemma AddSlack(v: VType, name: string, body: Body)
    ensures var w := AddOne(v, name, body); w.width - |w.ids| == v.width - |v.ids| + (if name in v.ids then 1 else 0)
  {
    if name !in v.ids { assert v.ids[name := v.width].Keys == v.ids.Keys + {name}; }
  }

  lemma {:induction false} AddAllSlack(v: VType, news: seq<(string, Body)>)
    ensures var w := AddAll(v, news); v.width - |v.ids| <= w.width - |w.ids|
    ensures var w := AddAll(v, news);
      w.width - |w.ids| == v.width - |v.ids| ==>
        (forall i, j | 0 <= i < j < |news| :: news[i].0 != news[j].0)
          && (forall i | 0 <= i < |news| :: news[i].0 !in v.ids)
  {
    if news != [] {
      var n := |news| - 1;
      var p := news[..n];
      AddAllSlack(v, p);
      AddSlack(AddAll(v, p), news[n].0, news[n].1);
      AddedIds(v, p, news[n].0);
      forall i | 0 <= i < n && news[i].0 == news[n].0
        ensures news[n].0 in AddAll(v, p).ids
      {
        assert p[i].0 == news[n].0;
      }
    }
  }

  lemma DropSlack(v: VType, name: string)
    requires |v.ids| <= v.width
    ensures var w := DropOne(v, name); w.width - |w.ids| == v.width - |v.ids|
  {
    if name in v.ids {
      assert DropId(v.ids, name).Keys == v.ids.Keys - {name};
      assert |v.ids.Keys - {name}| == |v.ids.Keys| - 1;
    }
  }

  lemma {:induction false} DropAllSlack(v: VType, names: seq<string>)
    requires |v.ids| <= v.width
    ensures var w := DropAll(v, names); w.width - |w.ids| == v.width - |v.ids|
    ensures forall i | 0 <= i < |names| :: names[i] !in DropAll(v, names).ids
  {
    if names != [] {
      var n := |names| - 1;
      DropAllSlack(v, names[..n]);
      DropSlack(DropAll(v, names[..n]), names[n]);
      forall i | 0 <= i < n ensures names[i] !in DropAll(v, names[..n]).ids { assert names[..n][i] == names[i]; }
    }
  }

  lemma {:induction false} IdsFit(cols: seq<Col>, ids: Ids)
    requires Indexed(cols, ids)
    ensures |ids| <= |cols|
  {
    var names := set j | 0 <= j < |cols| :: cols[j].name;
    forall t | t in ids.Keys ensures t in names { assert cols[ids[t]].name == t; }
    assert ids.Keys <= names;
    NamesFit(cols);
    SubsetSize(ids.Keys, names);
  }

  lemma SubsetSize(a: set<string>, b: set<string>)
    requires a <= b
    ensures |a| <= |b|
  {
    assert b == a + (b - a);
  }

  lemma {:induction false} NamesFit(cols: seq<Col>)
    ensures |set j | 0 <= j < |cols| :: cols[j].name| <= |cols|
  {
    var names := set j | 0 <= j < |cols| :: cols[j].name;
    if cols != [] {
      var p := cols[..|cols| - 1];
      var rest := set j | 0 <= j < |p| :: p[j].name;
      NamesFit(p);
      forall t | t in names ensures t in rest + {cols[|cols| - 1].name} {
        var j :| 0 <= j < |cols| && cols[j].name == t;
        if j < |p| { assert p[j].name == t; }
      }
      SubsetSize(names, rest + {cols[|cols| - 1].name});
    }
  }

  lemma AddMisses(v: VType, news: seq<(string, Body)>)
    requires Valid(v) && !Conflict(v, news) && TryDrop(AddAll(v, news), Names(news)) == Some(v)
    ensures Fresh(v, news)
  {
    IdsFit(v.cols, v.ids);
    AddAllSlack(v, news);
    DropAllSlack(AddAll(v, news), Names(news));
    forall i | 0 <= i < |news| ensures Some(news[i].0) != v.pk { assert !Has(v, news[i].0); }
  }

  /** A tolerated conflict adds nothing, but its undo removes the column that was there. */
  lemma ConflictMisses(v: VType, news: seq<(string, Body)>)
    requires Valid(v) && Conflict(v, news)
    ensures TryDrop(v, Names(news)) != Some(v) && !Fresh(v, news)
  {
    var i :| 0 <= i < |news| && Has(v, news[i].0);
    FindIs(v.cols, v.ids, news[i].0);
    IdsFit(v.cols, v.ids);
    DropAllSlack(v, Names(news));
    assert Names(news)[i] == news[i].0;
  }

  lemma AddUndoExact(v: VType, news: seq<(string, Body)>, strict: bool)
    requires Valid(v) && Do(v, Add(news, strict)).Some?
    ensures var s := Do(v, Add(news, strict)).value; Undone(s.v, s.undo) == Some(v) <==> Fresh(v, news)
  {
    if Conflict(v, news) {
      ConflictMisses(v, news);
    } else if Fresh(v, news) {
      AddUndone(v, news);
    } else if TryDrop(AddAll(v, news), Names(news)) == Some(v) {
      AddMisses(v, news);
    }
  }

  // ------------------------------------------------------------------------------------
  // Soft deletion
  // ------------------------------------------------------------------------------------

  lemma {:induction false} SetDeadIs(cols: seq<Col>, ids: Ids, names: seq<string>, dead: bool)
    requires Indexed(cols, ids)
    ensures Indexed(SetDead(cols, names, dead), ids)
    ensures forall j | 0 <= j < |cols| ::
      SetDead(cols, names, dead)[j] == if cols[j].name in names then cols[j].(dead := dead) else cols[j]
  {
    if names != [] {
      var p, n := names[..|names| - 1], names[|names| - 1];
      SetDeadIs(cols, ids, p, dead);
      FindIs(SetDead(cols, p, dead), ids, n);
      assert names == p + [n];
      forall j: nat | j < |cols|
        ensures cols[j].name == n <==> n in ids && j == ids[n]
      {
        assert ids[cols[j].name] == j;
      }
    }
  }

  lemma DeleteUndone(v: VType, names: seq<string>)
    requires Valid(v) && Do(v, Delete(names)).Some?
    ensures Valid(Do(v, Delete(names)).value.v) && SetDead(SetDead(v.cols, names, true), names, false) == v.cols
  {
    var c := SetDead(v.cols, names, true);
    SetDeadIs(v.cols, v.ids, names, true);
    SetDeadIs(c, v.ids, names, false);
    forall j: nat | j < |v.cols| ensures SetDead(c, names, false)[j] == v.cols[j] {
      if v.cols[j].name in names { DeletedWasLive(v, names, j); }
    }
  }

  lemma DeletedWasLive(v: VType, names: seq<string>, j: nat)
    requires Valid(v) && Do(v, Delete(names)).Some? && j < |v.cols| && v.cols[j].name in names
    ensures !v.cols[j].dead
  {
    var i :| 0 <= i < |names| && names[i] == v.cols[j].name;
    assert Has(v, names[i]) && Some(names[i]) != v.pk;
    FindIs(v.cols, v.ids, names[i]);
  }

  // ------------------------------------------------------------------------------------
  // One operation
  // ------------------------------------------------------------------------------------

  /** What a caller can check before the operation. */
  predicate Restorable(v: VType, op: Op) {
    match op
    case Add(news, _) => Fresh(v, news)
    case Rename(ps, _) => if TryRename(v, ps).Some? then Unchained(v.ids, ps) else Idle(v, ps)
    case Delete(_) => true
    case Set(_, _) => true
  }

  /** A schema operation's undo restores schema and table exactly under its condition. */
  lemma UndoExact(v: VType, op: Op)
    requires Valid(v) && Plain(v, op) && Do(v, op).Some?
    ensures Undone(Do(v, op).value.v, Do(v, op).value.undo) == Some(v) <==> Restorable(v, op)
  {
    match op
    case Add(news, strict) => AddUndoExact(v, news, strict);
    case Rename(ps, _) => if TryRename(v, ps).Some? { RenameUndoExact(v, ps); } else { ToleratedUndoExact(v, ps); }
    case Delete(names) => DeleteUndone(v, names);
    case Set(col, body) => assert v.cols[col := v.cols[col].(body := body)][col := v.cols[col]] == v.cols;
  }

  lemma StepValid(v: VType, op: Op)
    requires Valid(v) && Plain(v, op) && Do(v, op).Some? && Restorable(v, op)
    ensures Valid(Do(v, op).value.v) && Do(v, op).value.v.pk == v.pk
  {
    match op
    case Add(news, strict) =>
      AddUndone(v, news);
      AddedValid(v, news);
    case Rename(ps, _) => if TryRename(v, ps).Some? { RenameUndone(v, ps); }
    case Delete(names) => DeleteUndone(v, names);
    case Set(col, body) =>
  }
}
