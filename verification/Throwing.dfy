/**
 * An edge type's addition of columns that throws half-way: what it leaves in the schema and when
 * its undo record, which stays, takes that back.
 */
module Throwing {
  import opened Wrappers
  import opened Database
  import C = Columns
  import N = Renames

  /** The schema's list does not depend on the table. */
  lemma {:induction false} DropAllCols(a: C.VType, b: C.VType, names: seq<string>)
    requires a.cols == b.cols
    ensures C.DropAll(a, names).cols == C.DropAll(b, names).cols
  {
    if names != [] { DropAllCols(a, b, names[..|names| - 1]); }
  }

  /** Unknown names leave the table as it is. */
  lemma {:induction false} DropAllIdle(v: C.VType, names: seq<string>)
    requires forall i | 0 <= i < |names| :: names[i] !in v.ids
    ensures var w := C.DropAll(v, names); w.ids == v.ids && w.width == v.width && w.pk == v.pk
  {
    if names != [] { DropAllIdle(v, names[..|names| - 1]); }
  }

  lemma FrontIsFresh(v: C.VType, news: seq<(string, N.Body)>)
    requires C.Valid(v)
    ensures C.Fresh(v, news[..FirstKnown(v, news, 0)])
  {
    var k := FirstKnown(v, news, 0);
    forall i | 0 <= i < k ensures news[i].0 !in v.ids && Some(news[i].0) != v.pk {
      assert !Known(v, news, i);
      C.FindIs(v.cols, v.ids, news[i].0);
    }
    forall i, j | 0 <= i < j < k ensures news[i].0 != news[j].0 { assert !Known(v, news, j); }
  }

  lemma SameNames(v: C.VType, news: seq<(string, N.Body)>)
    requires OnlyRepeats(v, news)
    ensures C.Elems(C.Names(news)) == C.Elems(C.Names(news[..FirstKnown(v, news, 0)]))
  {
    var k := FirstKnown(v, news, 0);
    var a, b := C.Names(news), C.Names(news[..k]);
    forall t | t in C.Elems(a) ensures t in C.Elems(b) {
      var i :| 0 <= i < |a| && a[i] == t;
      if i < k { assert b[i] == t; }
    }
    forall t | t in C.Elems(b) ensures t in C.Elems(a) {
      var i :| 0 <= i < |b| && b[i] == t;
      assert a[i] == t;
    }
  }

  lemma FrontIsThere(v: C.VType, news: seq<(string, N.Body)>, j: nat)
    requires j < FirstKnown(v, news, 0)
    ensures C.HasInternal(Thrown(v, news), news[j].0)
  {
    var front := news[..FirstKnown(v, news, 0)];
    C.AddedCols(v, front);
    assert Thrown(v, news).cols[|v.cols| + j].name == front[j].0;
  }

  lemma ThrownKnows(v: C.VType, news: seq<(string, N.Body)>, i: nat)
    requires C.Valid(v) && OnlyRepeats(v, news) && i < |news|
    ensures C.HasInternal(Thrown(v, news), news[i].0)
  {
    var k := FirstKnown(v, news, 0);
    var j: nat := i;
    if k <= i { j :| 0 <= j < k && C.Names(news[..k])[j] == news[i].0; }
    FrontIsThere(v, news, j);
  }

  lemma ThrownBack(v: C.VType, news: seq<(string, N.Body)>)
    requires C.Valid(v) && !C.Conflict(v, news) && OnlyRepeats(v, news)
    ensures C.TryDrop(Thrown(v, news), C.Names(news)) == Some(v)
  {
    var k, names := FirstKnown(v, news, 0), C.Names(news);
    var w, u := Thrown(v, news), C.AddAll(v, news[..k]);
    forall i: nat | i < |names| ensures C.HasInternal(w, names[i]) && Some(names[i]) != w.pk {
      ThrownKnows(v, news, i);
      assert !C.Has(v, news[i].0);
    }
    FrontIsFresh(v, news);
    DropAllCols(w, u, names);
    C.AddedValid(v, news[..k]);
    C.DropAllKeeps(u, names);
    SameNames(v, news);
    C.AddedKeep(v, news[..k]);
    DropAllIdle(w, names);
  }

  lemma ThrownMisses(v: C.VType, news: seq<(string, N.Body)>)
    requires C.Valid(v) && !C.Conflict(v, news) && C.TryDrop(Thrown(v, news), C.Names(news)) == Some(v)
    ensures OnlyRepeats(v, news)
  {
    var k, names, w := FirstKnown(v, news, 0), C.Names(news), Thrown(v, news);
    C.IdsFit(v.cols, v.ids);
    C.DropAllSlack(w, names);
    forall i | 0 <= i < |news| ensures news[i].0 !in v.ids { assert names[i] !in C.DropAll(w, names).ids; }
    forall i | k <= i < |news| ensures news[i].0 in C.Names(news[..k]) {
      assert C.HasInternal(w, names[i]) && !C.Has(v, news[i].0);
      AddedName(v, news[..k], news[i].0);
    }
  }

  /** A name in the longer list is one of the new ones. */
  lemma AddedName(v: C.VType, front: seq<(string, N.Body)>, name: string)
    requires C.Valid(v) && name !in v.ids && C.Find(C.AddAll(v, front).cols, name, false, 0).Some?
    ensures name in C.Names(front)
  {
    C.AddedCols(v, front);
    var cols := C.AddAll(v, front).cols;
    var j := C.Find(cols, name, false, 0).value;
    forall i: nat | i < |v.cols| ensures cols[i].name != name {
      assert cols[i] == cols[..|v.cols|][i] && v.cols[i].name in v.ids;
    }
    var i := j - |v.cols|;
    assert cols[|v.cols| + i].name == front[i].0 == C.Names(front)[i];
  }

  /** The record of a throwing addition restores the columns exactly if there were only repetitions. */
  lemma ThrownExact(v: C.VType, news: seq<(string, N.Body)>)
    requires C.Valid(v) && !C.Conflict(v, news)
    ensures C.TryDrop(Thrown(v, news), C.Names(news)) == Some(v) <==> OnlyRepeats(v, news)
  {
    if OnlyRepeats(v, news) { ThrownBack(v, news); }
    if C.TryDrop(Thrown(v, news), C.Names(news)) == Some(v) { ThrownMisses(v, news); }
  }

  /** It throws behind at least one new column, or at a column that is there. */
  lemma WipesExact(v: C.VType, news: seq<(string, N.Body)>)
    requires C.Valid(v) && OnlyRepeats(v, news) && news != [] && !C.Conflict(v, news)
    ensures Wipes(Thrown(v, news)) <==> |v.cols| == 1 && !v.cols[0].body.varchar
  {
    var k := FirstKnown(v, news, 0);
    C.AddedCols(v, news[..k]);
    C.FindIs(v.cols, v.ids, news[0].0);
    assert !C.Has(v, news[0].0);
    assert Known(v, news, 0) ==> k == 0;
    assert Thrown(v, news).cols[..|v.cols|] == v.cols;
    assert |v.cols| > 0 ==> Thrown(v, news).cols[0] == Thrown(v, news).cols[..|v.cols|][0];
  }
}
