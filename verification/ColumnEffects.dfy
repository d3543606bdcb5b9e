/**
 * What the column operations of one type do, column by column, said of the schema's list and the
 * table's map themselves; and when they are refused.
 */
module ColumnEffects {
  import opened Wrappers
  import opened Renames
  import opened Columns

  /** The first column of that name. */
  predicate NameAt(cols: seq<Col>, name: string, j: nat) {
    j < |cols| && cols[j].name == name && forall i | 0 <= i < j :: cols[i].name != name
  }

  /** The primary key, or a column whose first holder of the name is not deleted. */
  ghost predicate Knows(v: VType, name: string) {
    v.pk == Some(name) || exists j: nat :: NameAt(v.cols, name, j) && !v.cols[j].dead
  }

  /** The name is still in the schema, but of a deleted column. */
  ghost predicate Forgets(v: VType, name: string) {
    v.pk != Some(name) && exists j: nat :: NameAt(v.cols, name, j) && v.cols[j].dead
  }

  function LiveUpTo(cols: seq<Col>, n: nat): (k: nat)
    requires n <= |cols|
  {
    if n == 0 then 0 else LiveUpTo(cols, n - 1) + (if cols[n - 1].dead then 0 else 1)
  }

  // ------------------------------------------------------------------------------------
  // The columns afterwards
  // ------------------------------------------------------------------------------------

  /** New columns behind the old ones, with their names, kinds and defaults. */
  predicate ColsAdded(a: seq<Col>, news: seq<(string, Body)>, b: seq<Col>) {
    && |b| == |a| + |news| && (forall j | 0 <= j < |a| :: b[j] == a[j])
    && forall i | 0 <= i < |news| :: b[|a| + i] == Col(news[i].0, news[i].1, false)
  }

  /** The name was not in the table, and comes first at i. */
  predicate NewAt(ids: Ids, news: seq<(string, Body)>, i: nat)
    requires i < |news|
  {
    news[i].0 !in ids && forall j | 0 <= j < i :: news[j].0 != news[i].0
  }

  /** Known names keep their ids, new ones get the next. */
  ghost predicate IdsAdded(a: Ids, width: nat, news: seq<(string, Body)>, b: Ids) {
    && (forall t | t in a :: t in b && b[t] == a[t])
    && (forall i: nat | i < |news| && NewAt(a, news, i) :: news[i].0 in b && b[news[i].0] == width + i)
    && (forall t | t in b :: t in a || exists i :: 0 <= i < |news| && news[i].0 == t)
  }

  ghost predicate Added(v: VType, news: seq<(string, Body)>, w: VType) {
    && w.pk == v.pk && w.width == v.width + |news|
    && ColsAdded(v.cols, news, w.cols) && IdsAdded(v.ids, v.width, news, w.ids)
  }

  /** The first column of each name is marked, nothing else changes. */
  ghost predicate Deleted(v: VType, names: seq<string>, w: VType) {
    && w.pk == v.pk && w.ids == v.ids && w.width == v.width && |w.cols| == |v.cols|
    && forall j: nat | j < |v.cols| ::
        && w.cols[j].name == v.cols[j].name && w.cols[j].body == v.cols[j].body
        && (w.cols[j].dead <==> v.cols[j].dead || (NameAt(v.cols, v.cols[j].name, j) && v.cols[j].name in names))
  }

  /** One rename: the first column of the old name that is not deleted gets the new one. */
  predicate RenameStep(a: seq<Col>, b: seq<Col>, p: Pair) {
    && |b| == |a|
    && forall j | 0 <= j < |a| ::
        b[j] == if a[j].name == p.old_ && !a[j].dead && (forall i | 0 <= i < j :: a[i].name != p.old_ || a[i].dead)
                then Col(p.new_, a[j].body, a[j].dead) else a[j]
  }

  /** In the table the id moves to the new name, unless another column has it: then it is lost. */
  predicate MoveStep(a: Ids, b: Ids, p: Pair) {
    if p.old_ !in a then b == a
    else
      && (forall t | t in a && t != p.old_ && t != p.new_ :: t in b && b[t] == a[t])
      && (forall t | t in b :: t in a || t == p.new_)
      && (p.old_ != p.new_ ==> p.old_ !in b)
      && p.new_ in b && b[p.new_] == if p.new_ in a && p.new_ != p.old_ then a[p.new_] else a[p.old_]
  }

  /** One rename after the other. */
  ghost predicate Renamed(v: VType, ps: seq<Pair>, w: VType) {
    && w.pk == v.pk && w.width == v.width
    && (exists cs :: ColsRenamed(v.cols, ps, w.cols, cs)) && exists ms :: IdsMoved(v.ids, ps, w.ids, ms)
  }

  predicate ColsRenamed(a: seq<Col>, ps: seq<Pair>, b: seq<Col>, cs: seq<seq<Col>>) {
    && |cs| == |ps| + 1 && cs[0] == a && cs[|ps|] == b
    && forall i: nat | i < |ps| :: RenameStep(cs[i], cs[i + 1], ps[i])
  }

  predicate IdsMoved(a: Ids, ps: seq<Pair>, b: Ids, ms: seq<Ids>) {
    && |ms| == |ps| + 1 && ms[0] == a && ms[|ps|] == b
    && forall i: nat | i < |ps| :: MoveStep(ms[i], ms[i + 1], ps[i])
  }

  predicate BodySet(v: VType, col: nat, body: Body, w: VType) {
    && w.pk == v.pk && w.ids == v.ids && w.width == v.width && |w.cols| == |v.cols| && col < |v.cols|
    && forall j | 0 <= j < |v.cols| ::
        w.cols[j] == if j == col then Col(v.cols[j].name, body, v.cols[j].dead) else v.cols[j]
  }

  /** The operation takes the columns v to w. */
  ghost predicate Does(v: VType, op: Op, w: VType) {
    match op
    case Add(news, _) => if exists i :: 0 <= i < |news| && Knows(v, news[i].0) then w == v else Added(v, news, w)
    case Rename(ps, _) => if exists i :: 0 <= i < |ps| && !Knows(v, ps[i].old_) then w == v else Renamed(v, ps, w)
    case Delete(names) => Deleted(v, names, w)
    case Set(col, body) => BodySet(v, col, body, w)
  }

  ghost predicate Refused(v: VType, op: Op) {
    match op
    case Add(news, strict) => strict && exists i :: 0 <= i < |news| && Knows(v, news[i].0)
    case Rename(ps, strict) =>
      && (exists i :: 0 <= i < |ps| && !Knows(v, ps[i].old_))
      && (strict || exists i :: 0 <= i < |ps| && Forgets(v, ps[i].old_))
    case Delete(names) => exists i :: 0 <= i < |names| && (!Knows(v, names[i]) || v.pk == Some(names[i]))
    case Set(col, _) => col >= |v.cols| || v.cols[col].dead || col >= LiveUpTo(v.cols, |v.cols|)
  }

  // ------------------------------------------------------------------------------------
  // Proofs
  // ------------------------------------------------------------------------------------

  lemma {:induction false} FindIsFirst(cols: seq<Col>, name: string, live: bool, k: nat)
    ensures var r := Find(cols, name, live, k);
      r.Some? ==> forall i | k <= i < r.value :: cols[i].name != name || (live && cols[i].dead)
    decreases |cols| - k
  {
    if k < |cols| { FindIsFirst(cols, name, live, k + 1); }
  }

  lemma HasIs(v: VType, name: string)
    ensures Has(v, name) <==> Knows(v, name)
    ensures HasInternal(v, name) && !Has(v, name) <==> Forgets(v, name)
  {
    FindIsFirst(v.cols, name, false, 0);
    var f := Find(v.cols, name, false, 0);
    if f.Some? { assert NameAt(v.cols, name, f.value); }
  }

  lemma {:induction false} LiveCountIs(cols: seq<Col>)
    ensures LiveCount(cols) == LiveUpTo(cols, |cols|)
  {
    if cols != [] {
      var n := |cols| - 1;
      LiveCountIs(cols[..n]);
      PrefixLive(cols, n, n);
    }
  }

  lemma {:induction false} PrefixLive(cols: seq<Col>, m: nat, n: nat)
    requires n <= m <= |cols|
    ensures LiveUpTo(cols[..m], n) == LiveUpTo(cols, n)
  {
    if n > 0 { PrefixLive(cols, m, n - 1); }
  }

  lemma {:induction false} NewIdIs(v: VType, news: seq<(string, Body)>, i: nat)
    requires i < |news| && NewAt(v.ids, news, i)
    ensures news[i].0 in AddAll(v, news).ids && AddAll(v, news).ids[news[i].0] == v.width + i
  {
    var n := |news| - 1;
    var p := news[..n];
    AddedCols(v, p);
    if i < n {
      assert p[i] == news[i];
      NewIdIs(v, p, i);
    } else {
      AddedIds(v, p, news[n].0);
      forall j | 0 <= j < |p| ensures p[j].0 != news[n].0 { assert p[j] == news[j]; }
    }
  }

  lemma AddAllDoes(v: VType, news: seq<(string, Body)>)
    ensures Added(v, news, AddAll(v, news))
  {
    var w := AddAll(v, news);
    AddedCols(v, news);
    forall j | 0 <= j < |v.cols| ensures w.cols[j] == v.cols[j] { assert w.cols[..|v.cols|][j] == w.cols[j]; }
    forall t ensures t in w.ids <==> t in v.ids || exists i :: 0 <= i < |news| && news[i].0 == t {
      AddedIds(v, news, t);
    }
    forall t | t in v.ids ensures t in w.ids && w.ids[t] == v.ids[t] { AddedIds(v, news, t); }
    forall i: nat | i < |news| && NewAt(v.ids, news, i) ensures news[i].0 in w.ids && w.ids[news[i].0] == v.width + i {
      NewIdIs(v, news, i);
    }
  }

  lemma {:induction false} SetDeadDoes(cols: seq<Col>, names: seq<string>, j: nat)
    requires j < |cols|
    ensures var c := SetDead(cols, names, true)[j];
      && c.name == cols[j].name && c.body == cols[j].body
      && (c.dead <==> cols[j].dead || (NameAt(cols, cols[j].name, j) && cols[j].name in names))
  {
    if names != [] {
      var n := |names| - 1;
      var c, m := SetDead(cols, names[..n], true), names[n];
      forall i: nat | i < |cols| ensures c[i].name == cols[i].name { SetDeadDoes(cols, names[..n], i); }
      SetDeadDoes(cols, names[..n], j);
      FindIsFirst(c, m, false, 0);
      assert names == names[..n] + [m];
    }
  }

  lemma RenameColDoes(cols: seq<Col>, p: Pair)
    ensures RenameStep(cols, RenameCol(cols, p), p)
  {
    FindIsFirst(cols, p.old_, true, 0);
  }

  lemma MoveDoes(ids: Ids, p: Pair)
    ensures MoveStep(ids, Move(ids, p), p)
  {
  }

  lemma RenameAllDoes(v: VType, ps: seq<Pair>)
    ensures Renamed(v, ps, RenameAll(v, ps))
  {
    var cs := seq(|ps| + 1, i requires 0 <= i < |ps| + 1 => RenameCols(v.cols, ps, i));
    var ms := seq(|ps| + 1, i requires 0 <= i < |ps| + 1 => MoveAll(v.ids, ps, i));
    forall i: nat | i < |ps| ensures RenameStep(cs[i], cs[i + 1], ps[i]) { RenameColDoes(cs[i], ps[i]); }
    forall i: nat | i < |ps| ensures MoveStep(ms[i], ms[i + 1], ps[i]) { MoveDoes(ms[i], ps[i]); }
    assert ColsRenamed(v.cols, ps, RenameAll(v, ps).cols, cs) && IdsMoved(v.ids, ps, RenameAll(v, ps).ids, ms);
  }

  lemma AddDoes(v: VType, news: seq<(string, Body)>, strict: bool)
    ensures var r := Do(v, Add(news, strict));
      (r.None? <==> Refused(v, Add(news, strict))) && (r.Some? ==> Does(v, Add(news, strict), r.value.v))
  {
    AddAllDoes(v, news);
    forall i | 0 <= i < |news| ensures Has(v, news[i].0) <==> Knows(v, news[i].0) { HasIs(v, news[i].0); }
  }

  lemma RenameDoes(v: VType, ps: seq<Pair>, strict: bool)
    ensures var r := Do(v, Rename(ps, strict));
      (r.None? <==> Refused(v, Rename(ps, strict))) && (r.Some? ==> Does(v, Rename(ps, strict), r.value.v))
  {
    RenameAllDoes(v, ps);
    forall i | 0 <= i < |ps|
      ensures Has(v, ps[i].old_) <==> Knows(v, ps[i].old_)
      ensures HasInternal(v, ps[i].old_) && !Has(v, ps[i].old_) <==> Forgets(v, ps[i].old_)
    {
      HasIs(v, ps[i].old_);
    }
  }

  lemma DeleteDoes(v: VType, names: seq<string>)
    ensures var r := Do(v, Delete(names));
      (r.None? <==> Refused(v, Delete(names))) && (r.Some? ==> Does(v, Delete(names), r.value.v))
  {
    forall i | 0 <= i < |names| ensures Has(v, names[i]) <==> Knows(v, names[i]) { HasIs(v, names[i]); }
    forall j: nat | j < |v.cols|
      ensures var c := SetDead(v.cols, names, true)[j];
        && c.name == v.cols[j].name && c.body == v.cols[j].body
        && (c.dead <==> v.cols[j].dead || (NameAt(v.cols, v.cols[j].name, j) && v.cols[j].name in names))
    {
      SetDeadDoes(v.cols, names, j);
    }
  }

  /** A column operation is refused exactly where it cannot be carried out, and otherwise does what it says. */
  lemma ColumnsDo(v: VType, op: Op)
    ensures var r := Do(v, op); (r.None? <==> Refused(v, op)) && (r.Some? ==> Does(v, op, r.value.v))
  {
    match op
    case Add(news, strict) => AddDoes(v, news, strict);
    case Rename(ps, strict) => RenameDoes(v, ps, strict);
    case Delete(names) => DeleteDoes(v, names);
    case Set(_, _) => LiveCountIs(v.cols);
  }

  // ------------------------------------------------------------------------------------
  // Removal for good
  // ------------------------------------------------------------------------------------

  /** How many of the first n columns are not among the names. */
  function KeptUpTo(cols: seq<Col>, names: seq<string>, n: nat): (k: nat)
    requires n <= |cols|
  {
    if n == 0 then 0 else KeptUpTo(cols, names, n - 1) + (if cols[n - 1].name in names then 0 else 1)
  }

  /** A column that is not named stays, behind those that stay in front of it. */
  predicate StaysAt(a: seq<Col>, names: seq<string>, b: seq<Col>, j: nat)
    requires j < |a|
  {
    a[j].name !in names ==> KeptUpTo(a, names, j) < |b| && b[KeptUpTo(a, names, j)] == a[j]
  }

  /** The other columns stay, in order. */
  predicate Dropped(a: seq<Col>, names: seq<string>, b: seq<Col>) {
    |b| == KeptUpTo(a, names, |a|) && forall j: nat | j < |a| :: StaysAt(a, names, b, j)
  }

  lemma {:induction false} KeepSize(cols: seq<Col>, names: seq<string>, n: nat)
    requires n <= |cols|
    ensures |Keep(cols[..n], Elems(names))| == KeptUpTo(cols, names, n)
  {
    if n > 0 {
      KeepSize(cols, names, n - 1);
      assert cols[..n][..n - 1] == cols[..n - 1];
    }
  }

  lemma {:induction false} KeepAt(cols: seq<Col>, names: seq<string>, n: nat, j: nat)
    requires j < n <= |cols| && cols[j].name !in names
    ensures var k, r := KeptUpTo(cols, names, j), Keep(cols[..n], Elems(names)); k < |r| && r[k] == cols[j]
  {
    KeepSize(cols, names, n - 1);
    assert cols[..n][..n - 1] == cols[..n - 1];
    if j < n - 1 { KeepAt(cols, names, n - 1, j); }
  }

  /** Removing columns: the named ones go, the others keep their order and get their places as ids. */
  lemma DropDoes(v: VType, names: seq<string>)
    requires Valid(v)
    ensures Dropped(v.cols, names, DropAll(v, names).cols) && Valid(DropAll(v, names)) && DropAll(v, names).pk == v.pk
  {
    DropAllKeeps(v, names);
    KeepSize(v.cols, names, |v.cols|);
    assert v.cols[..|v.cols|] == v.cols;
    forall j: nat | j < |v.cols| ensures StaysAt(v.cols, names, DropAll(v, names).cols, j) {
      if v.cols[j].name !in names { KeepAt(v.cols, names, |v.cols|, j); }
    }
  }
}
