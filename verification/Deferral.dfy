/**
 * Column changes of an update transaction with deletion deferred to commit, against the log
 * replayed in recovery, which deletes at once: exactly when the two agree.
 */
module Deferral {
  import opened Wrappers
  import opened Renames
  import opened Columns

  // ------------------------------------------------------------------------------------
  // The table as a sequence
  // ------------------------------------------------------------------------------------

  /** The names of the table's columns by id; a column that lost its name to another has none. */
  type Slots = seq<Option<string>>

  ghost predicate Rep(ids: Ids, width: nat, q: Slots) {
    && |q| == width
    && (forall t | t in ids :: ids[t] < width && q[ids[t]] == Some(t))
    && (forall j: nat | j < width && q[j].Some? :: q[j].value in ids && ids[q[j].value] == j)
  }

  lemma RepUnique(a: Ids, b: Ids, width: nat, q: Slots)
    requires Rep(a, width, q) && Rep(b, width, q)
    ensures a == b
  {
    forall t | t in a ensures t in b && b[t] == a[t] { assert q[a[t]] == Some(t); }
    forall t | t in b ensures t in a { assert q[b[t]] == Some(t); }
  }

  function MoveSlot(q: Slots, ids: Ids, p: Pair): (r: Slots)
    requires p.old_ in ids ==> ids[p.old_] < |q|
    ensures |r| == |q|
  {
    if p.old_ !in ids then q
    else q[ids[p.old_] := if p.new_ in ids && p.new_ != p.old_ then None else Some(p.new_)]
  }

  lemma RepMove(ids: Ids, width: nat, q: Slots, p: Pair)
    requires Rep(ids, width, q)
    ensures Rep(Move(ids, p), width, MoveSlot(q, ids, p))
  {
    var r := MoveSlot(q, ids, p);
    var m := Move(ids, p);
    forall t | t in m ensures m[t] < width && r[m[t]] == Some(t) { }
    forall j: nat | j < width && r[j].Some? ensures r[j].value in m && m[r[j].value] == j { }
  }

  lemma RepAdd(v: VType, q: Slots, name: string, body: Body)
    requires Rep(v.ids, v.width, q)
    ensures var w := AddOne(v, name, body);
      Rep(w.ids, w.width, q + [if name in v.ids then None else Some(name)])
  {
    var w := AddOne(v, name, body);
    var r := q + [if name in v.ids then None else Some(name)];
    forall t | t in w.ids ensures w.ids[t] < w.width && r[w.ids[t]] == Some(t) { }
    forall j: nat | j < w.width && r[j].Some? ensures r[j].value in w.ids && w.ids[r[j].value] == j { }
  }

  /** Without the columns whose name is in the set. */
  function Strip(q: Slots, names: set<string>): (r: Slots) {
    if q == [] then []
    else
      var last := q[|q| - 1];
      Strip(q[..|q| - 1], names) + (if last.Some? && last.value in names then [] else [last])
  }

  lemma {:induction false} StripAppend(a: Slots, b: Slots, names: set<string>)
    ensures Strip(a + b, names) == Strip(a, names) + Strip(b, names)
  {
    if b == [] {
      assert a + b == a;
    } else {
      assert (a + b)[..|a + b| - 1] == a + b[..|b| - 1];
      StripAppend(a, b[..|b| - 1], names);
    }
  }

  lemma {:induction false} StripAll(q: Slots, names: set<string>)
    requires forall j | 0 <= j < |q| :: q[j].None? || q[j].value !in names
    ensures Strip(q, names) == q
  {
    if q != [] { StripAll(q[..|q| - 1], names); }
  }

  lemma {:induction false} StripTwice(q: Slots, a: set<string>, b: set<string>)
    ensures Strip(Strip(q, a), b) == Strip(q, a + b)
  {
    if q != [] {
      var n := |q| - 1;
      StripTwice(q[..n], a, b);
      StripAppend(Strip(q[..n], a), Strip([q[n]], a), b);
      assert [q[n]][..0] == [];
      StripOne(q[n], a);
      StripOne(q[n], b);
      StripOne(q[n], a + b);
    }
  }

  lemma StripOne(o: Option<string>, names: set<string>)
    ensures Strip([o], names) == if o.Some? && o.value in names then [] else [o]
    ensures Strip([], names) == []
  {
    assert [o][..0] == [];
  }

  /** Removing the column at position j, where its name is the only one stripped. */
  lemma {:induction false} StripAt(q: Slots, j: nat, name: string)
    requires j < |q| && q[j] == Some(name) && forall k | 0 <= k < |q| && k != j :: q[k] != Some(name)
    ensures Strip(q, {name}) == q[..j] + q[j + 1..]
  {
    var n := |q| - 1;
    var p := q[..n];
    if j == n {
      StripAll(p, {name});
      assert q[..j] + q[j + 1..] == p;
    } else {
      StripAt(p, j, name);
      DropFromFront(p, [q[n]], j);
      assert q == p + [q[n]];
    }
  }

  lemma RepOnly(ids: Ids, width: nat, q: Slots, name: string)
    requires Rep(ids, width, q)
    ensures name in ids ==> forall k | 0 <= k < |q| && k != ids[name] :: q[k] != Some(name)
    ensures name !in ids ==> forall k | 0 <= k < |q| :: q[k] != Some(name)
  {
  }

  /** delete_column, seen on the sequence. */
  lemma RepDrop(v: VType, q: Slots, name: string)
    requires Rep(v.ids, v.width, q)
    ensures Rep(DropOne(v, name).ids, DropOne(v, name).width, Strip(q, {name}))
  {
    RepOnly(v.ids, v.width, q, name);
    if name in v.ids {
      StripAt(q, v.ids[name], name);
      RepRemove(v.ids, v.width, q, name);
    } else {
      StripAll(q, {name});
    }
  }

  function Removed(q: Slots, j: nat): (r: Slots)
    requires j < |q|
    ensures |r| == |q| - 1
  {
    q[..j] + q[j + 1..]
  }

  lemma RemovedAt(q: Slots, j: nat, k: nat)
    requires j < |q| && k < |q| - 1
    ensures Removed(q, j)[k] == q[if k < j then k else k + 1]
  {
  }

  lemma RemovedId(ids: Ids, width: nat, q: Slots, name: string, t: string)
    requires Rep(ids, width, q) && name in ids && t in DropId(ids, name)
    ensures var k := DropId(ids, name)[t]; k < width - 1 && Removed(q, ids[name])[k] == Some(t)
  {
    assert q[ids[t]] == Some(t) && q[ids[name]] == Some(name);
    RemovedAt(q, ids[name], DropId(ids, name)[t]);
  }

  lemma RemovedSlot(ids: Ids, width: nat, q: Slots, name: string, k: nat)
    requires Rep(ids, width, q) && name in ids && k < width - 1 && Removed(q, ids[name])[k].Some?
    ensures var t := Removed(q, ids[name])[k].value; t in DropId(ids, name) && DropId(ids, name)[t] == k
  {
    RemovedAt(q, ids[name], k);
    assert q[ids[name]] == Some(name);
  }

  lemma RepRemove(ids: Ids, width: nat, q: Slots, name: string)
    requires Rep(ids, width, q) && name in ids
    ensures 0 < width && Rep(DropId(ids, name), width - 1, q[..ids[name]] + q[ids[name] + 1..])
  {
    forall t | t in DropId(ids, name)
      ensures DropId(ids, name)[t] < width - 1 && Removed(q, ids[name])[DropId(ids, name)[t]] == Some(t)
    {
      RemovedId(ids, width, q, name, t);
    }
    forall k: nat | k < width - 1 && Removed(q, ids[name])[k].Some?
      ensures var t := Removed(q, ids[name])[k].value; t in DropId(ids, name) && DropId(ids, name)[t] == k
    {
      RemovedSlot(ids, width, q, name, k);
    }
  }

  lemma {:induction false} RepDropAll(v: VType, q: Slots, names: seq<string>)
    requires Rep(v.ids, v.width, q)
    ensures Rep(DropAll(v, names).ids, DropAll(v, names).width, Strip(q, Elems(names)))
  {
    if names == [] {
      StripAll(q, Elems(names));
    } else {
      var p, n := names[..|names| - 1], names[|names| - 1];
      RepDropAll(v, q, p);
      RepDrop(DropAll(v, p), Strip(q, Elems(p)), n);
      StripTwice(q, Elems(p), {n});
      ElemsStep(names);
    }
  }

  // ------------------------------------------------------------------------------------
  // The list of columns
  // ------------------------------------------------------------------------------------

  /** The columns that are not deleted. */
  function Alive(cols: seq<Col>): (r: seq<Col>) {
    if cols == [] then [] else Alive(cols[..|cols| - 1]) + (if cols[|cols| - 1].dead then [] else [cols[|cols| - 1]])
  }

  lemma {:induction false} AliveAppend(a: seq<Col>, b: seq<Col>)
    ensures Alive(a + b) == Alive(a) + Alive(b)
  {
    if b == [] {
      assert a + b == a;
    } else {
      assert (a + b)[..|a + b| - 1] == a + b[..|b| - 1];
      AliveAppend(a, b[..|b| - 1]);
    }
  }

  lemma AliveOne(c: Col)
    ensures Alive([c]) == (if c.dead then [] else [c]) && Alive([]) == []
  {
    assert [c][..0] == [];
  }

  lemma Cut<T>(s: seq<T>, j: nat)
    requires j <= |s|
    ensures s == s[..j] + s[j..]
  {
  }

  lemma AliveCut(cols: seq<Col>, j: nat)
    requires j <= |cols|
    ensures Alive(cols) == Alive(cols[..j]) + Alive(cols[j..])
  {
    Cut(cols, j);
    AliveAppend(cols[..j], cols[j..]);
  }

  lemma AliveHead(cols: seq<Col>)
    requires cols != []
    ensures Alive(cols) == (if cols[0].dead then [] else [cols[0]]) + Alive(cols[1..])
  {
    AliveOne(cols[0]);
    assert cols == [cols[0]] + cols[1..];
    AliveAppend([cols[0]], cols[1..]);
  }

  lemma AliveParts(cols: seq<Col>, j: nat)
    requires j < |cols|
    ensures Alive(cols) == Alive(cols[..j]) + ((if cols[j].dead then [] else [cols[j]]) + Alive(cols[j + 1..]))
  {
    AliveCut(cols, j);
    AliveHead(cols[j..]);
    assert cols[j..][1..] == cols[j + 1..] && cols[j..][0] == cols[j];
  }

  lemma Middle(a: seq<Col>, c: Col, d: Col, b: seq<Col>)
    ensures (a + ([c] + b))[|a|] == c && (a + ([c] + b))[|a| := d] == a + ([d] + b)
    ensures (a + ([c] + b))[..|a|] + (a + ([c] + b))[|a| + 1..] == a + ([] + b)
  {
  }

  /** A column changed in place, without changing whether it is deleted. */
  lemma AliveChange(cols: seq<Col>, j: nat, c: Col)
    requires j < |cols| && c.dead == cols[j].dead
    ensures c.dead ==> Alive(cols[j := c]) == Alive(cols)
    ensures !c.dead ==> var a := |Alive(cols[..j])|;
      a < |Alive(cols)| && Alive(cols)[a] == cols[j] && Alive(cols[j := c]) == Alive(cols)[a := c]
  {
    var d := cols[j := c];
    AliveParts(cols, j);
    AliveParts(d, j);
    assert d[..j] == cols[..j] && d[j + 1..] == cols[j + 1..];
    Middle(Alive(cols[..j]), cols[j], c, Alive(cols[j + 1..]));
  }

  /** A column deleted in place. */
  lemma AliveDelete(cols: seq<Col>, j: nat)
    requires j < |cols| && !cols[j].dead
    ensures var a := |Alive(cols[..j])|;
      a < |Alive(cols)| && Alive(cols)[a] == cols[j]
      && Alive(cols[j := cols[j].(dead := true)]) == Alive(cols)[..a] + Alive(cols)[a + 1..]
  {
    var d := cols[j := cols[j].(dead := true)];
    AliveParts(cols, j);
    AliveParts(d, j);
    assert d[..j] == cols[..j] && d[j + 1..] == cols[j + 1..];
    Middle(Alive(cols[..j]), cols[j], cols[j], Alive(cols[j + 1..]));
  }

  lemma {:induction false} AliveHas(cols: seq<Col>, c: Col)
    ensures c in Alive(cols) <==> c in cols && !c.dead
  {
    if cols != [] {
      AliveHas(cols[..|cols| - 1], c);
      assert cols == cols[..|cols| - 1] + [cols[|cols| - 1]];
    }
  }

  lemma {:induction false} FindFirst(cols: seq<Col>, name: string, live: bool, k: nat, j: nat)
    requires k <= j < |cols| && cols[j].name == name && !(live && cols[j].dead)
    requires forall i | k <= i < j :: cols[i].name != name || (live && cols[i].dead)
    ensures Find(cols, name, live, k) == Some(j)
    decreases j - k
  {
    if k < j { FindFirst(cols, name, live, k + 1, j); }
  }

  /** A deleted column is the first of its name, and the names of deleted columns are the set. */
  ghost predicate Marked(cols: seq<Col>, deleted: set<string>) {
    && (forall j: nat | j < |cols| && cols[j].dead ::
          cols[j].name in deleted && forall i | 0 <= i < j :: cols[i].name != cols[j].name)
    && (forall d | d in deleted :: exists j :: 0 <= j < |cols| && cols[j].dead && cols[j].name == d)
  }

  /** The deleted column of that name. */
  lemma DeadAt(cols: seq<Col>, deleted: set<string>, d: string) returns (j: nat)
    requires Marked(cols, deleted) && d in deleted
    ensures j < |cols| && cols[j].dead && cols[j].name == d && Find(cols, d, false, 0) == Some(j)
    ensures forall i | 0 <= i < j :: cols[i].name != d
  {
    j :| 0 <= j < |cols| && cols[j].dead && cols[j].name == d;
    FindFirst(cols, d, false, 0, j);
  }

  // ------------------------------------------------------------------------------------
  // The transaction and its replay
  // ------------------------------------------------------------------------------------

  /** The type as the transaction changes it, and the names it will remove at commit. */
  datatype Deferred = Deferred(v: VType, deleted: set<string>)

  function LiveStep(x: Deferred, op: Op): (y: Deferred) {
    match Do(x.v, op)
    case None => x
    case Some(s) =>
      Deferred(s.v, match op
                    case Add(news, _) => x.deleted - Elems(Names(news))
                    case Delete(names) => x.deleted + Elems(names)
                    case _ => x.deleted)
  }

  /** A record goes to the log before the storage is asked, after the checks of the transaction itself. */
  predicate Logged(x: Deferred, op: Op) {
    match op
    case Add(_, _) => true
    case Rename(ps, _) => forall i | 0 <= i < |ps| :: ps[i].old_ !in x.deleted
    case _ => Do(x.v, op).Some?
  }

  /** What a record does in recovery: deletion at once; a refusal is ignored. */
  function ReplayStep(w: VType, op: Op): (r: VType) {
    match op
    case Add(news, _) => if Conflict(w, news) then w else AddAll(w, news)
    case Rename(ps, _) => (match TryRename(w, ps) case None => w case Some(r) => r)
    case Delete(names) => (match TryDrop(w, names) case None => w case Some(r) => r)
    case Set(col, body) => if col < |w.cols| then w.(cols := w.cols[col := w.cols[col].(body := body)]) else w
  }

  /** Removing the collected names, in whatever order the set gives them. */
  function Commit(x: Deferred, order: seq<string>): (r: VType) {
    match TryDrop(x.v, order) case None => x.v case Some(r) => r
  }

  /** Each name of the set once. */
  predicate Listing(order: seq<string>, deleted: set<string>) {
    Elems(order) == deleted && forall i, j | 0 <= i < j < |order| :: order[i] != order[j]
  }

  /** Whatever the order, commit gives what recovery has. */
  ghost predicate Agree(x: Deferred, w: VType) {
    forall order | Listing(order, x.deleted) :: Commit(x, order) == w
  }

  /** The primary key is not among the names. */
  predicate KeyStays(v: VType, names: set<string>) { v.pk.Some? ==> v.pk.value !in names }

  /** Recovery is where the transaction is, without the columns to be removed. */
  ghost predicate Tracks(x: Deferred, w: VType, q: Slots) {
    && w.pk == x.v.pk && KeyStays(x.v, x.deleted)
    && Marked(x.v.cols, x.deleted) && w.cols == Alive(x.v.cols)
    && Rep(x.v.ids, x.v.width, q) && Rep(w.ids, w.width, Strip(q, x.deleted))
  }

  // ------------------------------------------------------------------------------------
  // Commit from a tracked state
  // ------------------------------------------------------------------------------------

  /** The columns without the deleted ones whose name is in the set. */
  function Purge(cols: seq<Col>, names: set<string>): (r: seq<Col>) {
    if cols == [] then []
    else
      var c := cols[|cols| - 1];
      Purge(cols[..|cols| - 1], names) + (if c.dead && c.name in names then [] else [c])
  }

  lemma {:induction false} PurgeNone(cols: seq<Col>)
    ensures Purge(cols, {}) == cols
  {
    if cols != [] { PurgeNone(cols[..|cols| - 1]); }
  }

  lemma {:induction false} PurgeAll(cols: seq<Col>, names: set<string>)
    requires forall j | 0 <= j < |cols| && cols[j].dead :: cols[j].name in names
    ensures Purge(cols, names) == Alive(cols)
  {
    if cols != [] { PurgeAll(cols[..|cols| - 1], names); }
  }

  /** Column k is the first of its name. */
  predicate IsFirst(cols: seq<Col>, d: string, k: nat) {
    k < |cols| && cols[k].name == d && forall i | 0 <= i < k :: cols[i].name != d
  }

  /** Purging one more name removes the first column of that name. */
  lemma {:induction false} PurgeNext(cols: seq<Col>, names: set<string>, d: string, j: nat) returns (k: nat)
    requires IsFirst(cols, d, j) && cols[j].dead && d !in names
    requires forall i | 0 <= i < |cols| && i != j :: !(cols[i].dead && cols[i].name == d)
    ensures var p := Purge(cols, names);
      IsFirst(p, d, k) && Purge(cols, names + {d}) == p[..k] + p[k + 1..]
    decreases |cols|
  {
    var n := |cols| - 1;
    var c, r := cols[n], cols[..n];
    var pr := Purge(r, names);
    if j == n {
      PurgeSame(r, names, d);
      PurgeNames(r, names, d);
      k := |pr|;
      DropLast(pr, c);
    } else {
      k := PurgeNext(r, names, d, j);
      var tail := if c.dead && c.name in names then [] else [c];
      assert Purge(cols, names) == pr + tail;
      assert Purge(cols, names + {d}) == Purge(r, names + {d}) + tail;
      DropFromFront(pr, tail, k);
      FirstStays(pr, tail, d, k);
    }
  }

  lemma DropLast(a: seq<Col>, c: Col)
    ensures (a + [c])[..|a|] + (a + [c])[|a| + 1..] == a
  {
  }

  lemma FirstStays(a: seq<Col>, b: seq<Col>, d: string, k: nat)
    requires IsFirst(a, d, k)
    ensures IsFirst(a + b, d, k)
  {
  }

  lemma DropFromFront<T>(a: seq<T>, b: seq<T>, k: nat)
    requires k < |a|
    ensures (a + b)[..k] + (a + b)[k + 1..] == (a[..k] + a[k + 1..]) + b
  {
  }

  lemma {:induction false} PurgeSame(cols: seq<Col>, names: set<string>, d: string)
    requires forall i | 0 <= i < |cols| :: !(cols[i].dead && cols[i].name == d)
    ensures Purge(cols, names + {d}) == Purge(cols, names)
  {
    if cols != [] { PurgeSame(cols[..|cols| - 1], names, d); }
  }

  lemma {:induction false} PurgeNames(cols: seq<Col>, names: set<string>, d: string)
    requires forall i | 0 <= i < |cols| :: cols[i].name != d
    ensures forall i | 0 <= i < |Purge(cols, names)| :: Purge(cols, names)[i].name != d
  {
    if cols != [] { PurgeNames(cols[..|cols| - 1], names, d); }
  }

  /** Dropping names one by one purges their deleted columns. */
  lemma {:induction false} DropAllPurges(v: VType, deleted: set<string>, order: seq<string>)
    requires Marked(v.cols, deleted) && Elems(order) <= deleted
    requires forall i, j | 0 <= i < j < |order| :: order[i] != order[j]
    ensures DropAll(v, order).cols == Purge(v.cols, Elems(order)) && DropAll(v, order).pk == v.pk
  {
    if order == [] {
      assert Elems(order) == {};
      PurgeNone(v.cols);
    } else {
      var p, d := order[..|order| - 1], order[|order| - 1];
      ElemsStep(order);
      DropAllPurges(v, deleted, p);
      forall i | 0 <= i < |p| ensures p[i] != d { assert order[i] != order[|order| - 1]; }
      var j := DeadAt(v.cols, deleted, d);
      var k := PurgeNext(v.cols, Elems(p), d, j);
      FindFirst(Purge(v.cols, Elems(p)), d, false, 0, k);
    }
  }

  /** From a tracked state commit gives what recovery has, in any order. */
  lemma TracksAgree(x: Deferred, w: VType, q: Slots)
    requires Tracks(x, w, q)
    ensures Agree(x, w)
  {
    forall order | Listing(order, x.deleted) ensures Commit(x, order) == w {
      CommitIs(x, w, q, order);
    }
  }

  lemma DropIsAllowed(x: Deferred, order: seq<string>)
    requires KeyStays(x.v, x.deleted) && Elems(order) == x.deleted
    requires forall d | d in x.deleted :: exists j :: 0 <= j < |x.v.cols| && x.v.cols[j].name == d
    ensures TryDrop(x.v, order) == Some(DropAll(x.v, order))
  {
    forall i | 0 <= i < |order| ensures HasInternal(x.v, order[i]) && Some(order[i]) != x.v.pk {
      assert order[i] in Elems(order);
    }
  }

  lemma CommitIs(x: Deferred, w: VType, q: Slots, order: seq<string>)
    requires Tracks(x, w, q) && Listing(order, x.deleted)
    ensures Commit(x, order) == w
  {
    DropIsAllowed(x, order);
    DropAllPurges(x.v, x.deleted, order);
    PurgeAll(x.v.cols, x.deleted);
    RepDropAll(x.v, q, order);
    RepUnique(DropAll(x.v, order).ids, w.ids, w.width, Strip(q, x.deleted));
  }

  // ------------------------------------------------------------------------------------
  // What recovery knows
  // ------------------------------------------------------------------------------------

  lemma {:induction false} StripHas(q: Slots, names: set<string>, t: string)
    ensures Some(t) in Strip(q, names) <==> Some(t) in q && t !in names
  {
    if q != [] {
      StripHas(q[..|q| - 1], names, t);
      assert q == q[..|q| - 1] + [q[|q| - 1]];
    }
  }

  lemma RepHas(ids: Ids, width: nat, q: Slots, t: string)
    requires Rep(ids, width, q)
    ensures t in ids <==> Some(t) in q
  {
    if t in ids { assert q[ids[t]] == Some(t); }
  }

  /** The names in recovery's table are the others. */
  lemma TrackedIds(ids: Ids, width: nat, wids: Ids, wwidth: nat, q: Slots, deleted: set<string>, t: string)
    requires Rep(ids, width, q) && Rep(wids, wwidth, Strip(q, deleted))
    ensures t in wids <==> t in ids && t !in deleted
  {
    RepHas(ids, width, q, t);
    RepHas(wids, wwidth, Strip(q, deleted), t);
    StripHas(q, deleted, t);
  }

  /** The first live column of a name is where the first column of that name is in recovery. */
  lemma FindAlive(cols: seq<Col>, name: string)
    ensures var f := Find(cols, name, true, 0);
      Find(Alive(cols), name, true, 0) == if f.None? then None else Some(|Alive(cols[..f.value])|)
    ensures Find(Alive(cols), name, false, 0) == Find(Alive(cols), name, true, 0)
  {
    var f, a := Find(cols, name, true, 0), Alive(cols);
    forall i | 0 <= i < |a| ensures !a[i].dead && a[i] in cols { AliveHas(cols, a[i]); }
    if f.Some? {
      var j := f.value;
      AliveParts(cols, j);
      var front := Alive(cols[..j]);
      FindIsFirst(cols, name);
      forall i | 0 <= i < |front| ensures a[i].name != name {
        assert a[i] == front[i];
        AliveHas(cols[..j], front[i]);
      }
      FindFirst(a, name, true, 0, |front|);
      FindFirst(a, name, false, 0, |front|);
    }
  }

  lemma FindIsFirst(cols: seq<Col>, name: string)
    ensures var f := Find(cols, name, true, 0);
      f.Some? ==> forall i | 0 <= i < f.value :: cols[i].name != name || cols[i].dead
  {
    FindLeast(cols, name, true, 0);
  }

  lemma {:induction false} FindLeast(cols: seq<Col>, name: string, live: bool, k: nat)
    ensures var f := Find(cols, name, live, k);
      f.Some? ==> forall i | k <= i < f.value :: cols[i].name != name || (live && cols[i].dead)
    decreases |cols| - k
  {
    if k < |cols| { FindLeast(cols, name, live, k + 1); }
  }

  /** Names outside the set are known to recovery exactly if they are known to the transaction. */
  lemma SameHas(x: Deferred, w: VType, q: Slots, name: string)
    requires Tracks(x, w, q) && name !in x.deleted
    ensures Has(x.v, name) <==> Has(w, name)
  {
    var cols := x.v.cols;
    FindAlive(cols, name);
    var a := Alive(cols);
    forall i | 0 <= i < |a| ensures !a[i].dead { AliveHas(cols, a[i]); }
  }

  /** A name that passes the check is not one to be removed. */
  lemma HasIsNotDeleted(x: Deferred, w: VType, q: Slots, name: string)
    requires Tracks(x, w, q) && Has(x.v, name)
    ensures name !in x.deleted
  {
    if name in x.deleted { var j := DeadAt(x.v.cols, x.deleted, name); }
  }

  // ------------------------------------------------------------------------------------
  // Contents
  // ------------------------------------------------------------------------------------

  lemma {:induction false} LiveCountIs(cols: seq<Col>)
    ensures LiveCount(cols) == |Alive(cols)|
  {
    if cols != [] { LiveCountIs(cols[..|cols| - 1]); }
  }

  lemma {:induction false} AliveCount(cols: seq<Col>)
    ensures |Alive(cols)| <= |cols| && (|Alive(cols)| == |cols| <==> forall j | 0 <= j < |cols| :: !cols[j].dead)
  {
    if cols != [] {
      AliveCount(cols[..|cols| - 1]);
      assert cols == cols[..|cols| - 1] + [cols[|cols| - 1]];
    }
  }

  /** No deleted column in front, or nothing to change in the column meant and in the one hit. */
  predicate SetOk(v: VType, col: nat, body: Body)
    requires col < |v.cols|
  {
    || (forall j | 0 <= j < col :: !v.cols[j].dead)
    || (v.cols[col].body == body && col < |Alive(v.cols)| && Alive(v.cols)[col].body == body)
  }

  lemma FrontLive(cols: seq<Col>, col: nat)
    requires col < |cols|
    ensures |Alive(cols[..col])| <= col
    ensures |Alive(cols[..col])| == col <==> forall j | 0 <= j < col :: !cols[j].dead
  {
    AliveCount(cols[..col]);
    assert forall j | 0 <= j < col :: cols[..col][j] == cols[j];
  }

  lemma TwoChanges(s: seq<Col>, a: nat, b: nat, body: Body)
    requires a < |s| && b < |s| && a != b
    ensures s[a := s[a].(body := body)] == s[b := s[b].(body := body)] <==> s[a].body == body && s[b].body == body
  {
    var l, r := s[a := s[a].(body := body)], s[b := s[b].(body := body)];
    if s[a].body == body && s[b].body == body {
      assert l == s && r == s;
    } else {
      assert l[a] != r[a] || l[b] != r[b];
    }
  }

  lemma SetExact(x: Deferred, w: VType, q: Slots, col: nat, body: Body)
    requires Tracks(x, w, q) && Do(x.v, Set(col, body)).Some?
    ensures col < |Alive(x.v.cols)|
    ensures SetOk(x.v, col, body) ==> Tracks(LiveStep(x, Set(col, body)), ReplayStep(w, Set(col, body)), q)
    ensures !SetOk(x.v, col, body) ==> Alive(LiveStep(x, Set(col, body)).v.cols) != ReplayStep(w, Set(col, body)).cols
    ensures Marked(LiveStep(x, Set(col, body)).v.cols, x.deleted)
  {
    var cols := x.v.cols;
    var c := cols[col].(body := body);
    LiveCountIs(cols);
    AliveChange(cols, col, c);
    FrontLive(cols, col);
    var a := |Alive(cols[..col])|;
    MarkedSame(cols, cols[col := c], x.deleted);
    if a != col { TwoChanges(Alive(cols), a, col, body); }
  }

  lemma MarkedSame(a: seq<Col>, b: seq<Col>, deleted: set<string>)
    requires Marked(a, deleted) && |a| == |b|
    requires forall j | 0 <= j < |a| :: a[j].name == b[j].name && a[j].dead == b[j].dead
    ensures Marked(b, deleted)
  {
    forall d | d in deleted ensures exists j :: 0 <= j < |b| && b[j].dead && b[j].name == d {
      var j :| 0 <= j < |a| && a[j].dead && a[j].name == d;
      assert b[j].dead;
    }
  }

  /** Where commit meets a state with every deleted column marked, it purges exactly those. */
  lemma CommitPurges(x: Deferred, order: seq<string>)
    requires Marked(x.v.cols, x.deleted) && KeyStays(x.v, x.deleted) && Listing(order, x.deleted)
    ensures Commit(x, order).cols == Alive(x.v.cols)
  {
    DropIsAllowed(x, order);
    DropAllPurges(x.v, x.deleted, order);
    PurgeAll(x.v.cols, x.deleted);
  }

  // ------------------------------------------------------------------------------------
  // Columns that stay deleted
  // ------------------------------------------------------------------------------------

  predicate HasDead(cols: seq<Col>, d: string) {
    exists k :: 0 <= k < |cols| && cols[k].dead && cols[k].name == d
  }

  /** A deleted column behind another one of its name. */
  predicate Shadowed(cols: seq<Col>, d: string) {
    exists i, k :: 0 <= i < k < |cols| && cols[i].name == d && cols[k].dead && cols[k].name == d
  }

  predicate AllLive(cols: seq<Col>) { forall k | 0 <= k < |cols| :: !cols[k].dead }

  /** Where column k is once column f is taken out. */
  function Shift(f: nat, k: nat): (r: nat)
    requires k != f
  {
    if k < f then k else k - 1
  }

  lemma TakenOut(cols: seq<Col>, f: nat, k: nat)
    requires f < |cols| && k < |cols| && k != f
    ensures var r := cols[..f] + cols[f + 1..]; Shift(f, k) < |r| && r[Shift(f, k)] == cols[k]
  {
  }

  lemma DropKeepsDead(v: VType, name: string, d: string)
    requires HasDead(v.cols, d) && (name != d || Shadowed(v.cols, d))
    ensures HasDead(DropOne(v, name).cols, d)
  {
    var f := Find(v.cols, name, false, 0);
    if f.Some? {
      FindLeast(v.cols, name, false, 0);
      var k: nat;
      if name != d {
        k :| 0 <= k < |v.cols| && v.cols[k].dead && v.cols[k].name == d;
      } else {
        var i, j :| 0 <= i < j < |v.cols| && v.cols[i].name == d && v.cols[j].dead && v.cols[j].name == d;
        k := j;
      }
      TakenOut(v.cols, f.value, k);
    }
  }

  lemma DropKeepsShadow(v: VType, name: string, d: string)
    requires Shadowed(v.cols, d) && name != d
    ensures Shadowed(DropOne(v, name).cols, d)
  {
    var f := Find(v.cols, name, false, 0);
    if f.Some? {
      var i, k :| 0 <= i < k < |v.cols| && v.cols[i].name == d && v.cols[k].dead && v.cols[k].name == d;
      ShadowShifts(v.cols, f.value, i, k, d);
    }
  }

  lemma ShadowShifts(cols: seq<Col>, f: nat, i: nat, k: nat, d: string)
    requires i < k < |cols| && cols[i].name == d && cols[k].dead && cols[k].name == d && f < |cols| && f != i && f != k
    ensures Shadowed(cols[..f] + cols[f + 1..], d)
  {
    TakenOut(cols, f, i);
    TakenOut(cols, f, k);
    var a, b := Shift(f, i), Shift(f, k);
    assert a < b;
  }

  lemma {:induction false} DropAllKeepsDead(v: VType, names: seq<string>, d: string)
    requires HasDead(v.cols, d) && d !in names
    ensures HasDead(DropAll(v, names).cols, d)
  {
    if names != [] {
      var n := |names| - 1;
      DropAllKeepsDead(v, names[..n], d);
      DropKeepsDead(DropAll(v, names[..n]), names[n], d);
    }
  }

  lemma {:induction false} DropAllKeepsShadow(v: VType, names: seq<string>, d: string)
    requires Shadowed(v.cols, d) && d !in names
    ensures Shadowed(DropAll(v, names).cols, d)
  {
    if names != [] {
      var n := |names| - 1;
      DropAllKeepsShadow(v, names[..n], d);
      DropKeepsShadow(DropAll(v, names[..n]), names[n], d);
    }
  }

  lemma {:induction false} DropAllMissesShadowed(v: VType, names: seq<string>, d: string)
    requires Shadowed(v.cols, d) && forall i, j | 0 <= i < j < |names| :: names[i] != names[j]
    ensures HasDead(DropAll(v, names).cols, d)
  {
    if names != [] {
      var n := |names| - 1;
      var p := names[..n];
      if names[n] == d {
        forall i | 0 <= i < n ensures p[i] != d { assert names[i] != names[n]; }
        DropAllKeepsShadow(v, p, d);
      } else {
        DropAllMissesShadowed(v, p, d);
      }
      DropKeepsDead(DropAll(v, p), names[n], d);
    }
  }

  lemma {:induction false} AddAllLive(v: VType, news: seq<(string, Body)>)
    requires AllLive(v.cols)
    ensures AllLive(AddAll(v, news).cols)
  {
    if news != [] { AddAllLive(v, news[..|news| - 1]); }
  }

  lemma {:induction false} RenameLive(cols: seq<Col>, ps: seq<Pair>, k: nat)
    requires k <= |ps|
    ensures forall j | 0 <= j < |cols| :: RenameCols(cols, ps, k)[j].dead == cols[j].dead
    ensures forall j | 0 <= j < |cols| && cols[j].dead :: RenameCols(cols, ps, k)[j] == cols[j]
  {
    if k > 0 { RenameLive(cols, ps, k - 1); }
  }

  lemma AliveLive(cols: seq<Col>)
    ensures AllLive(Alive(cols))
  {
    var a := Alive(cols);
    forall i | 0 <= i < |a| ensures !a[i].dead { AliveHas(cols, a[i]); }
  }

  // ------------------------------------------------------------------------------------
  // Adding
  // ------------------------------------------------------------------------------------

  lemma SameConflict(x: Deferred, w: VType, q: Slots, news: seq<(string, Body)>)
    requires Tracks(x, w, q)
    ensures Conflict(x.v, news) ==> Conflict(w, news)
    ensures Elems(Names(news)) !! x.deleted ==> (Conflict(x.v, news) <==> Conflict(w, news))
  {
    if i :| 0 <= i < |news| && Has(x.v, news[i].0) {
      HasIsNotDeleted(x, w, q, news[i].0);
      SameHas(x, w, q, news[i].0);
    }
    if Elems(Names(news)) !! x.deleted {
      if i :| 0 <= i < |news| && Has(w, news[i].0) {
        assert Names(news)[i] in Elems(Names(news));
        SameHas(x, w, q, news[i].0);
      }
    }
  }

  lemma AddTracks(x: Deferred, w: VType, q: Slots, name: string, body: Body) returns (r: Slots)
    requires Tracks(x, w, q) && name !in x.deleted
    ensures Tracks(Deferred(AddOne(x.v, name, body), x.deleted), AddOne(w, name, body), r)
  {
    var s := if name in x.v.ids then None else Some(name);
    r := q + [s];
    RepAdd(x.v, q, name, body);
    RepAdd(w, Strip(q, x.deleted), name, body);
    TrackedIds(x.v.ids, x.v.width, w.ids, w.width, q, x.deleted, name);
    StripAppend(q, [s], x.deleted);
    StripOne(s, x.deleted);
    AliveOne(Col(name, body, false));
    AliveAppend(x.v.cols, [Col(name, body, false)]);
    MarkedMore(x.v.cols, Col(name, body, false), x.deleted);
  }

  lemma MarkedMore(cols: seq<Col>, c: Col, deleted: set<string>)
    requires Marked(cols, deleted) && !c.dead
    ensures Marked(cols + [c], deleted)
  {
    var all_ := cols + [c];
    forall d | d in deleted ensures exists j :: 0 <= j < |all_| && all_[j].dead && all_[j].name == d {
      var j := DeadAt(cols, deleted, d);
      assert all_[j] == cols[j];
    }
  }

  lemma {:induction false} AddAllTracks(x: Deferred, w: VType, q: Slots, news: seq<(string, Body)>) returns (r: Slots)
    requires Tracks(x, w, q) && forall i | 0 <= i < |news| :: news[i].0 !in x.deleted
    ensures Tracks(Deferred(AddAll(x.v, news), x.deleted), AddAll(w, news), r)
  {
    if news == [] {
      r := q;
    } else {
      var p := news[..|news| - 1];
      r := AddAllTracks(x, w, q, p);
      r := AddTracks(Deferred(AddAll(x.v, p), x.deleted), AddAll(w, p), r, news[|news| - 1].0, news[|news| - 1].1);
    }
  }

  /** None of the names is to be removed. */
  predicate AddOk(x: Deferred, news: seq<(string, Body)>) { Elems(Names(news)) !! x.deleted }

  lemma AddKeeps(x: Deferred, w: VType, q: Slots, news: seq<(string, Body)>, strict: bool) returns (r: Slots)
    requires Tracks(x, w, q) && (Do(x.v, Add(news, strict)).Some? ==> AddOk(x, news))
    ensures Tracks(LiveStep(x, Add(news, strict)), ReplayStep(w, Add(news, strict)), r)
  {
    SameConflict(x, w, q, news);
    r := q;
    if Do(x.v, Add(news, strict)).Some? {
      assert x.deleted - Elems(Names(news)) == x.deleted;
      if !Conflict(x.v, news) {
        forall i | 0 <= i < |news| ensures news[i].0 !in x.deleted { assert Names(news)[i] in Elems(Names(news)); }
        r := AddAllTracks(x, w, q, news);
      }
    }
  }

  lemma {:induction false} AddAllKeepsDead(v: VType, news: seq<(string, Body)>, d: string)
    requires HasDead(v.cols, d)
    ensures HasDead(AddAll(v, news).cols, d)
  {
    if news != [] {
      AddAllKeepsDead(v, news[..|news| - 1], d);
      var c := AddAll(v, news[..|news| - 1]).cols;
      var k :| 0 <= k < |c| && c[k].dead && c[k].name == d;
      assert AddAll(v, news).cols[k] == c[k];
    }
  }

  lemma AddBreaks(x: Deferred, w: VType, q: Slots, news: seq<(string, Body)>, strict: bool, order: seq<string>)
    requires Tracks(x, w, q) && Do(x.v, Add(news, strict)).Some? && !AddOk(x, news)
    requires Listing(order, LiveStep(x, Add(news, strict)).deleted)
    ensures Commit(LiveStep(x, Add(news, strict)), order) != ReplayStep(w, Add(news, strict))
  {
    var y := LiveStep(x, Add(news, strict));
    var d :| d in Elems(Names(news)) && d in x.deleted;
    var j := DeadAt(x.v.cols, x.deleted, d);
    AddAllKeepsDead(x.v, news, d);
    assert d !in Elems(order);
    DropAllKeepsDead(y.v, order, d);
    AliveLive(x.v.cols);
    AddAllLive(w, news);
  }

  // ------------------------------------------------------------------------------------
  // Deleting
  // ------------------------------------------------------------------------------------

  function CountName(cols: seq<Col>, name: string): (n: nat) {
    if cols == [] then 0
    else CountName(cols[..|cols| - 1], name) + (if cols[|cols| - 1].name == name then 1 else 0)
  }

  function Occurs(names: seq<string>, name: string): (n: nat) {
    if names == [] then 0
    else Occurs(names[..|names| - 1], name) + (if names[|names| - 1] == name then 1 else 0)
  }

  lemma {:induction false} CountAppend(a: seq<Col>, b: seq<Col>, name: string)
    ensures CountName(a + b, name) == CountName(a, name) + CountName(b, name)
  {
    if b == [] {
      assert a + b == a;
    } else {
      assert (a + b)[..|a + b| - 1] == a + b[..|b| - 1];
      CountAppend(a, b[..|b| - 1], name);
    }
  }

  lemma CountOut(cols: seq<Col>, f: nat, name: string)
    requires f < |cols|
    ensures CountName(cols[..f] + cols[f + 1..], name)
        == CountName(cols, name) - (if cols[f].name == name then 1 else 0)
  {
    var a, b := cols[..f], cols[f + 1..];
    assert cols == a + ([cols[f]] + b) && [cols[f]][..0] == [];
    CountAppend(a, [cols[f]] + b, name);
    CountAppend([cols[f]], b, name);
    CountAppend(a, b, name);
  }

  lemma {:induction false} CountNone(cols: seq<Col>, name: string)
    ensures CountName(cols, name) == 0 <==> forall j | 0 <= j < |cols| :: cols[j].name != name
  {
    if cols != [] {
      CountNone(cols[..|cols| - 1], name);
      assert cols == cols[..|cols| - 1] + [cols[|cols| - 1]];
    }
  }

  lemma CountDrop(v: VType, n: string, name: string)
    ensures CountName(DropOne(v, n).cols, name)
      == if n == name && CountName(v.cols, name) > 0 then CountName(v.cols, name) - 1 else CountName(v.cols, name)
  {
    var f := Find(v.cols, n, false, 0);
    CountNone(v.cols, name);
    if f.Some? { CountOut(v.cols, f.value, name); }
  }

  lemma {:induction false} CountDropAll(v: VType, names: seq<string>, name: string)
    ensures var c := CountName(v.cols, name);
      CountName(DropAll(v, names).cols, name) == if Occurs(names, name) < c then c - Occurs(names, name) else 0
  {
    if names != [] {
      CountDropAll(v, names[..|names| - 1], name);
      CountDrop(DropAll(v, names[..|names| - 1]), names[|names| - 1], name);
    }
  }

  lemma {:induction false} OccursIn(names: seq<string>, name: string)
    ensures name in names <==> Occurs(names, name) > 0
  {
    if names != [] {
      OccursIn(names[..|names| - 1], name);
      assert names == names[..|names| - 1] + [names[|names| - 1]];
    }
  }

  /** A name listed twice belongs to one column only. */
  predicate DeleteOk(x: Deferred, names: seq<string>) {
    forall i | 0 <= i < |names| :: names[i] in names[..i] ==> CountName(x.v.cols, names[i]) == 1
  }

  /** Soft deletion, one name after the other. */
  lemma {:induction false} SetDeadIs(cols: seq<Col>, names: seq<string>, j: nat)
    requires j < |cols|
    requires forall i | 0 <= i < |names| :: Find(cols, names[i], false, 0).Some?
    ensures var c := SetDead(cols, names, true);
      c[j] == if cols[j].name in names && Find(cols, cols[j].name, false, 0) == Some(j) then cols[j].(dead := true)
              else cols[j]
  {
    if names != [] {
      var p, n := names[..|names| - 1], names[|names| - 1];
      forall i | 0 <= i < |p| ensures Find(cols, p[i], false, 0).Some? { assert p[i] == names[i]; }
      var c := SetDead(cols, p, true);
      SetDeadIs(cols, p, j);
      SetDeadNames(cols, p);
      FindByName(cols, c, n, 0);
      assert names == p + [n];
    }
  }

  lemma {:induction false} SetDeadNames(cols: seq<Col>, names: seq<string>)
    ensures forall j | 0 <= j < |cols| :: SetDead(cols, names, true)[j].name == cols[j].name
  {
    if names != [] { SetDeadNames(cols, names[..|names| - 1]); }
  }

  lemma {:induction false} FindByName(a: seq<Col>, b: seq<Col>, name: string, k: nat)
    requires |a| == |b| && forall j | 0 <= j < |a| :: a[j].name == b[j].name
    ensures Find(a, name, false, k) == Find(b, name, false, k)
    decreases |a| - k
  {
    if k < |a| { FindByName(a, b, name, k + 1); }
  }

  lemma CountOne(cols: seq<Col>, name: string, j: nat, k: nat)
    requires CountName(cols, name) == 1 && j < |cols| && k < |cols| && cols[j].name == name && cols[k].name == name
    ensures j == k
  {
    CountOut(cols, j, name);
    CountNone(cols[..j] + cols[j + 1..], name);
    if j != k { TakenOut(cols, j, k); }
  }

  /** Deleting a column that is there. */
  lemma DeleteFresh(x: Deferred, w: VType, q: Slots, n: string)
    requires Tracks(x, w, q) && Some(n) != x.v.pk && Has(x.v, n)
    ensures var j := Find(x.v.cols, n, false, 0).value;
      Tracks(Deferred(x.v.(cols := x.v.cols[j := x.v.cols[j].(dead := true)]), x.deleted + {n}), DropOne(w, n), q)
  {
    var cols := x.v.cols;
    var j := Find(cols, n, false, 0).value;
    FindLeast(cols, n, false, 0);
    FindFirst(cols, n, true, 0, j);
    FindAlive(cols, n);
    AliveDelete(cols, j);
    RepDrop(w, Strip(q, x.deleted), n);
    StripTwice(q, x.deleted, {n});
    MarkedPlus(cols, x.deleted, j);
  }

  lemma MarkedPlus(cols: seq<Col>, deleted: set<string>, j: nat)
    requires Marked(cols, deleted) && j < |cols| && !cols[j].dead
    requires forall i | 0 <= i < j :: cols[i].name != cols[j].name
    ensures Marked(cols[j := cols[j].(dead := true)], deleted + {cols[j].name})
  {
    var r := cols[j := cols[j].(dead := true)];
    forall d | d in deleted + {cols[j].name} ensures exists k :: 0 <= k < |r| && r[k].dead && r[k].name == d {
      if d == cols[j].name {
        assert r[j].dead;
      } else {
        var k := DeadAt(cols, deleted, d);
        assert r[k].dead;
      }
    }
  }

  /** Recovery has no column left under the name. */
  lemma DeleteAgain(x: Deferred, w: VType, q: Slots, n: string)
    requires Tracks(x, w, q) && n in x.deleted && CountName(x.v.cols, n) == 1
    ensures DropOne(w, n) == w
  {
    var cols := x.v.cols;
    var j := DeadAt(cols, x.deleted, n);
    TrackedIds(x.v.ids, x.v.width, w.ids, w.width, q, x.deleted, n);
    var a := Alive(cols);
    forall i | 0 <= i < |a| ensures a[i].name != n {
      AliveHas(cols, a[i]);
      var k :| 0 <= k < |cols| && cols[k] == a[i];
      if cols[k].name == n { CountOne(cols, n, j, k); }
    }
  }

  /** The transaction after soft-deleting these names. */
  function Hidden(x: Deferred, names: seq<string>): (y: Deferred) {
    Deferred(x.v.(cols := SetDead(x.v.cols, names, true)), x.deleted + Elems(names))
  }

  /** All names can be deleted. */
  predicate Deletable(v: VType, names: seq<string>) {
    forall i | 0 <= i < |names| :: Has(v, names[i]) && Some(names[i]) != v.pk
  }

  lemma HiddenAgain(x: Deferred, w: VType, q: Slots, p: seq<string>, n: string)
    requires n in p && Deletable(x.v, p + [n]) && CountName(x.v.cols, n) == 1 && Tracks(Hidden(x, p), w, q)
    ensures Hidden(x, p + [n]) == Hidden(x, p) && DropOne(w, n) == w
  {
    var y := Hidden(x, p);
    HiddenAt(x, p, n);
    CountByName(x.v.cols, y.v.cols, n);
    DeleteAgain(y, w, q, n);
    var j := Find(y.v.cols, n, false, 0).value;
    assert y.v.cols[j := y.v.cols[j].(dead := true)] == y.v.cols;
    assert (p + [n])[..|p|] == p;
    ElemsStep(p + [n]);
  }

  lemma HiddenFresh(x: Deferred, w: VType, q: Slots, p: seq<string>, n: string)
    requires n !in p && Deletable(x.v, p + [n]) && Tracks(Hidden(x, p), w, q)
    ensures Tracks(Hidden(x, p + [n]), DropOne(w, n), q)
  {
    HiddenAt(x, p, n);
    assert (p + [n])[..|p|] == p;
    ElemsStep(p + [n]);
    assert x.deleted + Elems(p) + {n} == x.deleted + Elems(p + [n]);
    DeleteFresh(Hidden(x, p), w, q, n);
  }

  lemma HiddenNext(x: Deferred, w: VType, q: Slots, names: seq<string>)
    requires names != [] && Deletable(x.v, names) && DeleteOk(x, names)
    requires var p := names[..|names| - 1]; Tracks(Hidden(x, p), DropAll(w, p), q)
    ensures Tracks(Hidden(x, names), DropAll(w, names), q)
  {
    var k := |names| - 1;
    var p, n := names[..k], names[k];
    assert names == p + [n];
    if n in p {
      HiddenAgain(x, DropAll(w, p), q, p, n);
    } else {
      HiddenFresh(x, DropAll(w, p), q, p, n);
    }
  }

  lemma HiddenAt(x: Deferred, p: seq<string>, n: string)
    requires Deletable(x.v, p + [n])
    ensures var c := Hidden(x, p).v.cols;
      && |c| == |x.v.cols| && (forall j | 0 <= j < |c| :: c[j].name == x.v.cols[j].name)
      && Find(c, n, false, 0).Some? && (c[Find(c, n, false, 0).value].dead <==> n in p)
  {
    var cols, names := x.v.cols, p + [n];
    SetDeadNames(cols, p);
    FindByName(cols, SetDead(cols, p, true), n, 0);
    assert Has(x.v, names[|p|]);
    forall i | 0 <= i < |p| ensures Find(cols, p[i], false, 0).Some? { assert names[i] == p[i]; }
    SetDeadIs(cols, p, Find(cols, n, false, 0).value);
  }

  lemma {:induction false} CountByName(a: seq<Col>, b: seq<Col>, name: string)
    requires |a| == |b| && forall j | 0 <= j < |a| :: a[j].name == b[j].name
    ensures CountName(a, name) == CountName(b, name)
  {
    if a != [] { CountByName(a[..|a| - 1], b[..|b| - 1], name); }
  }

  lemma {:induction false} HiddenTracks(x: Deferred, w: VType, q: Slots, names: seq<string>)
    requires Tracks(x, w, q) && Deletable(x.v, names) && DeleteOk(x, names)
    ensures Tracks(Hidden(x, names), DropAll(w, names), q)
  {
    if names == [] {
      assert x.deleted + Elems(names) == x.deleted;
    } else {
      var p := names[..|names| - 1];
      assert DeleteOk(x, p) by {
        forall i | 0 <= i < |p| && p[i] in p[..i] ensures CountName(x.v.cols, p[i]) == 1 {
          assert p[i] == names[i] && p[..i] == names[..i];
        }
      }
      assert Deletable(x.v, p) by {
        forall i | 0 <= i < |p| ensures Has(x.v, p[i]) && Some(p[i]) != x.v.pk { assert p[i] == names[i]; }
      }
      HiddenTracks(x, w, q, p);
      HiddenNext(x, w, q, names);
    }
  }

  lemma DeleteReplayed(x: Deferred, w: VType, q: Slots, names: seq<string>)
    requires Tracks(x, w, q) && Deletable(x.v, names)
    ensures ReplayStep(w, Delete(names)) == DropAll(w, names)
    ensures LiveStep(x, Delete(names)) == Hidden(x, names)
  {
    forall i | 0 <= i < |names| ensures HasInternal(w, names[i]) && Some(names[i]) != w.pk {
      HasIsNotDeleted(x, w, q, names[i]);
      SameHas(x, w, q, names[i]);
    }
  }

  lemma HiddenMarked(x: Deferred, names: seq<string>)
    requires Marked(x.v.cols, x.deleted) && Deletable(x.v, names)
    ensures Marked(Hidden(x, names).v.cols, Hidden(x, names).deleted)
  {
    var cols, c := x.v.cols, SetDead(x.v.cols, names, true);
    SetDeadNames(cols, names);
    forall j: nat | j < |c| && c[j].dead
      ensures c[j].name in x.deleted + Elems(names) && forall i | 0 <= i < j :: c[i].name != c[j].name
    {
      SetDeadIs(cols, names, j);
      FindLeast(cols, cols[j].name, false, 0);
    }
    forall d | d in x.deleted + Elems(names) ensures exists j :: 0 <= j < |c| && c[j].dead && c[j].name == d {
      if d in x.deleted {
        var j := DeadAt(cols, x.deleted, d);
        SetDeadIs(cols, names, j);
      } else {
        var i :| 0 <= i < |names| && names[i] == d;
        assert Has(x.v, names[i]);
        SetDeadIs(cols, names, Find(cols, d, false, 0).value);
      }
    }
  }

  lemma {:induction false} CountAlive(cols: seq<Col>, name: string)
    requires forall j | 0 <= j < |cols| && cols[j].name == name :: !cols[j].dead
    ensures CountName(Alive(cols), name) == CountName(cols, name)
  {
    if cols != [] {
      var r, c := cols[..|cols| - 1], cols[|cols| - 1];
      CountAlive(r, name);
      CountAppend(Alive(r), if c.dead then [] else [c], name);
      assert [c][..0] == [];
    }
  }

  lemma CountBut(c: seq<Col>, j: nat, n: string)
    requires j < |c| && c[j].name == n && c[j].dead
    requires forall i | 0 <= i < |c| && i != j && c[i].name == n :: !c[i].dead
    ensures CountName(Alive(c), n) == CountName(c, n) - 1
  {
    var r := c[..j] + c[j + 1..];
    AliveParts(c, j);
    AliveAppend(c[..j], c[j + 1..]);
    assert [] + Alive(c[j + 1..]) == Alive(c[j + 1..]);
    CountOut(c, j, n);
    forall i | 0 <= i < |r| && r[i].name == n ensures !r[i].dead { assert r[i] == c[if i < j then i else i + 1]; }
    CountAlive(r, n);
  }

  /** One column of the name is gone. */
  lemma CountHidden(x: Deferred, names: seq<string>, i: nat)
    requires Marked(x.v.cols, x.deleted) && Deletable(x.v, names) && i < |names|
    ensures CountName(Alive(Hidden(x, names).v.cols), names[i]) == CountName(x.v.cols, names[i]) - 1
  {
    var cols, c, n := x.v.cols, SetDead(x.v.cols, names, true), names[i];
    SetDeadNames(cols, names);
    CountByName(cols, c, n);
    assert Has(x.v, names[i]);
    var j := Find(cols, n, false, 0).value;
    SetDeadIs(cols, names, j);
    HiddenMarked(x, names);
    CountBut(c, j, n);
  }

  lemma {:induction false} OccursTwice(names: seq<string>, i: nat)
    requires i < |names| && names[i] in names[..i]
    ensures Occurs(names, names[i]) >= 2
  {
    if i == |names| - 1 {
      OccursIn(names[..i], names[i]);
    } else {
      assert names[..|names| - 1][..i] == names[..i];
      OccursTwice(names[..|names| - 1], i);
    }
  }

  lemma DeleteBreaks(x: Deferred, w: VType, q: Slots, names: seq<string>)
    requires Tracks(x, w, q) && Deletable(x.v, names) && !DeleteOk(x, names)
    ensures Alive(Hidden(x, names).v.cols) != DropAll(w, names).cols
  {
    var i :| 0 <= i < |names| && names[i] in names[..i] && CountName(x.v.cols, names[i]) != 1;
    var n := names[i];
    assert Has(x.v, names[i]);
    HasIsNotDeleted(x, w, q, n);
    CountHidden(x, names, i);
    CountAlive(x.v.cols, n);
    CountDropAll(w, names, n);
    OccursTwice(names, i);
    CountNone(x.v.cols, n);
  }
}
