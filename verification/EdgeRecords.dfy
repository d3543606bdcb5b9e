/**
 * What the records of an edge table do to what is seen of it: adding an edge, removing one by raw
 * offsets, changing a property by ranks, and the values that a column change leaves.  Exactly when
 * the same record, read against other lists that show the same edges, does the same.
 */
module EdgeRecords {
  import opened Wrappers
  import opened Adjacency
  import R = Rebuild

  type Pairs = multiset<(nat, int)>

  // ------------------------------------------------------------------------------------
  // One list
  // ------------------------------------------------------------------------------------

  function Visible(l: seq<Slot>): (m: Pairs) { multiset(R.Neighbours(l)) }

  /** What one slot shows. */
  function Content(s: Slot): (m: Pairs) { if Live(s) then multiset{(s.nbr, s.data)} else multiset{} }

  lemma AppendSees(l: seq<Slot>, s: Slot)
    ensures Visible(l + [s]) == Visible(l) + Content(s)
  {
    R.NeighboursLast(l, s);
  }

  lemma {:induction false} EditSees(l: seq<Slot>, k: nat, s: Slot)
    requires k < |l|
    ensures Visible(l[k := s]) + Content(l[k]) == Visible(l) + Content(s)
  {
    var n := |l| - 1;
    var p := l[..n];
    assert l == p + [l[n]];
    AppendSees(p, l[n]);
    if k == n {
      assert l[k := s] == p + [s];
      AppendSees(p, s);
    } else {
      assert l[k := s] == p[k := s] + [l[n]];
      AppendSees(p[k := s], l[n]);
      EditSees(p, k, s);
    }
  }

  /** The first visible slot with that neighbour and payload. */
  function FirstLike(l: seq<Slot>, nbr: nat, data: int, k: nat): (r: Option<nat>)
    requires k <= |l|
    ensures r.Some? ==> r.value < |l| && Live(l[r.value]) && l[r.value].nbr == nbr && l[r.value].data == data
    ensures r.None? ==> forall j | k <= j < |l| :: !(Live(l[j]) && l[j].nbr == nbr && l[j].data == data)
    decreases |l| - k
  {
    if k == |l| then None
    else if Live(l[k]) && l[k].nbr == nbr && l[k].data == data then Some(k)
    else FirstLike(l, nbr, data, k + 1)
  }

  lemma {:induction false} SeenIsThere(l: seq<Slot>, nbr: nat, data: int)
    ensures R.Seen(l, nbr, data) > 0
            <==> exists j :: 0 <= j < |l| && Live(l[j]) && l[j].nbr == nbr && l[j].data == data
  {
    if l != [] {
      var n := |l| - 1;
      SeenIsThere(l[..n], nbr, data);
      assert l == l[..n] + [l[n]];
      if R.Seen(l[..n], nbr, data) > 0 {
        var j :| 0 <= j < n && Live(l[..n][j]) && l[..n][j].nbr == nbr && l[..n][j].data == data;
        assert l[j] == l[..n][j];
      }
      if j :| 0 <= j < n && Live(l[j]) && l[j].nbr == nbr && l[j].data == data {
        assert l[..n][j] == l[j];
      }
    }
  }

  // ------------------------------------------------------------------------------------
  // Both lists
  // ------------------------------------------------------------------------------------

  function Edit(a: Adj, v: nat, k: nat, s: Slot): (r: Adj)
    requires k < |List(a, v)|
  {
    a[v := List(a, v)[k := s]]
  }

  /** Slot k of u's outgoing list and slot m of w's incoming list replaced. */
  function EditBoth(t: Table, u: nat, k: nat, s: Slot, w: nat, m: nat, r: Slot): (t': Table)
    requires k < |List(t.out, u)| && m < |List(t.inc, w)|
  {
    Table(Edit(t.out, u, k, s), Edit(t.inc, w, m, r))
  }

  /** Replacing a by b changes what is seen as replacing c by d does. */
  predicate SameEdit(a: Slot, b: Slot, c: Slot, d: Slot) { Content(a) + Content(d) == Content(c) + Content(b) }

  lemma Cancel(v: Pairs, x: Pairs, y: Pairs, a: Pairs, b: Pairs, c: Pairs, d: Pairs)
    requires x + a == v + b && y + c == v + d
    ensures x == y <==> a + d == c + b
  {
    forall e: (nat, int) ensures x[e] == y[e] <==> (a + d)[e] == (c + b)[e] {
      assert (x + a)[e] == (v + b)[e] && (y + c)[e] == (v + d)[e];
    }
    if x == y {
      assert forall e: (nat, int) :: (a + d)[e] == (c + b)[e];
    } else if a + d == c + b {
      assert forall e: (nat, int) :: x[e] == y[e];
    }
  }

  /** What is seen of the list once what a shows is replaced by what b shows. */
  ghost predicate Becomes(l: seq<Slot>, l': seq<Slot>, a: Slot, b: Slot) {
    Visible(l') + Content(a) == Visible(l) + Content(b)
  }

  /** A slot that shows nothing. */
  function Nothing(): (s: Slot) { Slot(0, 0, None) }

  lemma BecomesAlike(l: seq<Slot>, l': seq<Slot>, a: Slot, b: Slot, m: seq<Slot>, m': seq<Slot>, c: Slot, d: Slot)
    requires Becomes(l, l', a, b) && Becomes(m, m', c, d) && Visible(l) == Visible(m)
    ensures Visible(l') == Visible(m') <==> SameEdit(a, b, c, d)
  {
    Cancel(Visible(l), Visible(l'), Visible(m'), Content(a), Content(b), Content(c), Content(d));
  }

  /** One list of the side changed. */
  ghost predicate Changed(x: Adj, x': Adj, u: nat, a: Slot, b: Slot) {
    SameBut(x', x, u) && Becomes(List(x, u), List(x', u), a, b)
  }

  lemma EditIs(x: Adj, u: nat, k: nat, s: Slot)
    requires k < |List(x, u)|
    ensures Changed(x, Edit(x, u, k, s), u, List(x, u)[k], s)
  {
    EditSees(List(x, u), k, s);
  }

  lemma AppendIs(x: Adj, u: nat, s: Slot)
    ensures Changed(x, x[u := List(x, u) + [s]], u, Nothing(), s)
  {
    AppendSees(List(x, u), s);
  }

  lemma ShowsAt(x: Table, y: Table, u: nat)
    requires R.Shows(x, y)
    ensures Visible(List(x.out, u)) == Visible(List(y.out, u)) && Visible(List(x.inc, u)) == Visible(List(y.inc, u))
  {
  }

  ghost predicate Alike(a: Adj, b: Adj, u: nat) { Visible(List(a, u)) == Visible(List(b, u)) }

  lemma AlikeShows(x: Table, y: Table)
    requires forall u: nat :: Alike(x.out, y.out, u)
    requires forall u: nat :: Alike(x.inc, y.inc, u)
    ensures R.Shows(x, y)
  {
    forall u: nat
      ensures Visible(List(x.out, u)) == Visible(List(y.out, u)) && Visible(List(x.inc, u)) == Visible(List(y.inc, u))
    {
      assert Alike(x.out, y.out, u) && Alike(x.inc, y.inc, u);
    }
  }

  /** The lists but one are those of the other side. */
  ghost predicate SameBut(a: Adj, b: Adj, u: nat) { forall v: nat | v != u :: List(a, v) == List(b, v) }

  lemma AlikeBut(a: Adj, b: Adj, a': Adj, b': Adj, u: nat, v: nat)
    requires SameBut(a', a, u) && SameBut(b', b, u) && Alike(a, b, v) && Alike(a', b', u)
    ensures Alike(a', b', v)
  {
    if v != u { assert List(a', v) == List(a, v) && List(b', v) == List(b, v); }
  }

  /** Tables that differ from two that show the same in one list on either side. */
  lemma ShowsBut(x: Table, y: Table, x': Table, y': Table, u: nat, w: nat)
    requires R.Shows(x, y) && SameBut(x'.out, x.out, u) && SameBut(y'.out, y.out, u)
    requires SameBut(x'.inc, x.inc, w) && SameBut(y'.inc, y.inc, w)
    ensures R.Shows(x', y') <==> Alike(x'.out, y'.out, u) && Alike(x'.inc, y'.inc, w)
  {
    if R.Shows(x', y') {
      ShowsAt(x', y', u);
      ShowsAt(x', y', w);
    } else if Alike(x'.out, y'.out, u) && Alike(x'.inc, y'.inc, w) {
      forall v: nat ensures Alike(x'.out, y'.out, v) {
        ShowsAt(x, y, v);
        AlikeBut(x.out, y.out, x'.out, y'.out, u, v);
      }
      forall v: nat ensures Alike(x'.inc, y'.inc, v) {
        ShowsAt(x, y, v);
        AlikeBut(x.inc, y.inc, x'.inc, y'.inc, w, v);
      }
      AlikeShows(x', y');
    }
  }

  /** The same two lists changed in two tables that show the same. */
  lemma ChangeShows(x: Table, x': Table, y: Table, y': Table, u: nat, w: nat,
                    a: Slot, b: Slot, c: Slot, d: Slot, a': Slot, b': Slot, c': Slot, d': Slot)
    requires R.Shows(x, y)
    requires Changed(x.out, x'.out, u, a, b) && Changed(x.inc, x'.inc, w, c, d)
    requires Changed(y.out, y'.out, u, a', b') && Changed(y.inc, y'.inc, w, c', d')
    ensures R.Shows(x', y') <==> SameEdit(a, b, a', b') && SameEdit(c, d, c', d')
  {
    ShowsBut(x, y, x', y', u, w);
    ShowsAt(x, y, u);
    ShowsAt(x, y, w);
    BecomesAlike(List(x.out, u), List(x'.out, u), a, b, List(y.out, u), List(y'.out, u), a', b');
    BecomesAlike(List(x.inc, w), List(x'.inc, w), c, d, List(y.inc, w), List(y'.inc, w), c', d');
  }

  lemma EditShows(x: Table, y: Table, u: nat, w: nat, k: nat, s: Slot, m: nat, r: Slot,
                  k': nat, s': Slot, m': nat, r': Slot)
    requires R.Shows(x, y) && k < |List(x.out, u)| && m < |List(x.inc, w)|
    requires k' < |List(y.out, u)| && m' < |List(y.inc, w)|
    ensures R.Shows(EditBoth(x, u, k, s, w, m, r), EditBoth(y, u, k', s', w, m', r'))
            <==> SameEdit(List(x.out, u)[k], s, List(y.out, u)[k'], s')
                 && SameEdit(List(x.inc, w)[m], r, List(y.inc, w)[m'], r')
  {
    EditIs(x.out, u, k, s);
    EditIs(x.inc, w, m, r);
    EditIs(y.out, u, k', s');
    EditIs(y.inc, w, m', r');
    ChangeShows(x, EditBoth(x, u, k, s, w, m, r), y, EditBoth(y, u, k', s', w, m', r'), u, w,
      List(x.out, u)[k], s, List(x.inc, w)[m], r, List(y.out, u)[k'], s', List(y.inc, w)[m'], r');
  }

  // ------------------------------------------------------------------------------------
  // Paired lists stay paired
  // ------------------------------------------------------------------------------------

  /** The two slots are the sides of one edge from u to w, or both show nothing. */
  predicate Sides(u: nat, w: nat, a: Slot, b: Slot) {
    if Live(a) then Live(b) && a.nbr == w && b.nbr == u && a.data == b.data else !Live(b)
  }

  lemma PairedAt(t: Table, u: nat, w: nat, data: int)
    requires R.Paired(t)
    ensures Visible(List(t.out, u))[(w, data)] == Visible(List(t.inc, w))[(u, data)]
  {
    assert R.Seen(List(t.out, u), w, data) == R.Seen(List(t.inc, w), u, data);
  }

  lemma ChangedAt(x: Adj, x': Adj, u: nat, a: Slot, b: Slot, v: nat, p: (nat, int))
    requires Changed(x, x', u, a, b)
    ensures Visible(List(x', v))[p] + (if v == u then Content(a)[p] else 0)
            == Visible(List(x, v))[p] + (if v == u then Content(b)[p] else 0)
  {
    if v == u {
      assert (Visible(List(x', u)) + Content(a))[p] == (Visible(List(x, u)) + Content(b))[p];
    } else {
      assert List(x', v) == List(x, v);
    }
  }

  lemma SidesCount(u: nat, w: nat, a: Slot, c: Slot, v: nat, z: nat, d: int)
    requires Sides(u, w, a, c)
    ensures (if v == u then Content(a)[(z, d)] else 0) == if z == w then Content(c)[(v, d)] else 0
  {
  }

  lemma ChangePairedAt(t: Table, t': Table, u: nat, w: nat, a: Slot, b: Slot, c: Slot, d: Slot, v: nat, z: nat, e: int)
    requires R.Paired(t) && Changed(t.out, t'.out, u, a, b) && Changed(t.inc, t'.inc, w, c, d)
    requires Sides(u, w, a, c) && Sides(u, w, b, d)
    ensures R.Seen(List(t'.out, v), z, e) == R.Seen(List(t'.inc, z), v, e)
  {
    PairedAt(t, v, z, e);
    ChangedAt(t.out, t'.out, u, a, b, v, (z, e));
    ChangedAt(t.inc, t'.inc, w, c, d, z, (v, e));
    SidesCount(u, w, a, c, v, z, e);
    SidesCount(u, w, b, d, v, z, e);
  }

  lemma ChangePaired(t: Table, t': Table, u: nat, w: nat, a: Slot, b: Slot, c: Slot, d: Slot)
    requires R.Paired(t) && Changed(t.out, t'.out, u, a, b) && Changed(t.inc, t'.inc, w, c, d)
    requires Sides(u, w, a, c) && Sides(u, w, b, d)
    ensures R.Paired(t')
  {
    forall v: nat, z: nat, e: int ensures R.Seen(List(t'.out, v), z, e) == R.Seen(List(t'.inc, z), v, e) {
      ChangePairedAt(t, t', u, w, a, b, c, d, v, z, e);
    }
  }

  lemma EditPaired(t: Table, u: nat, k: nat, s: Slot, w: nat, m: nat, r: Slot)
    requires R.Paired(t) && k < |List(t.out, u)| && m < |List(t.inc, w)|
    requires Sides(u, w, List(t.out, u)[k], List(t.inc, w)[m]) && Sides(u, w, s, r)
    ensures R.Paired(EditBoth(t, u, k, s, w, m, r))
  {
    EditIs(t.out, u, k, s);
    EditIs(t.inc, w, m, r);
    ChangePaired(t, EditBoth(t, u, k, s, w, m, r), u, w, List(t.out, u)[k], s, List(t.inc, w)[m], r);
  }

  lemma PutIs(t: Table, src: nat, dst: nat, data: int, ts: nat)
    ensures var t' := PutEdge(t, src, dst, data, ts);
      && Changed(t.out, t'.out, src, Nothing(), Slot(dst, data, Some(ts)))
      && Changed(t.inc, t'.inc, dst, Nothing(), Slot(src, data, Some(ts)))
  {
    AppendIs(t.out, src, Slot(dst, data, Some(ts)));
    AppendIs(t.inc, dst, Slot(src, data, Some(ts)));
  }

  lemma PutPaired(t: Table, src: nat, dst: nat, data: int, ts: nat)
    requires R.Paired(t)
    ensures R.Paired(PutEdge(t, src, dst, data, ts))
  {
    PutIs(t, src, dst, data, ts);
    ChangePaired(t, PutEdge(t, src, dst, data, ts), src, dst,
      Nothing(), Slot(dst, data, Some(ts)), Nothing(), Slot(src, data, Some(ts)));
  }

  lemma PutShows(x: Table, y: Table, src: nat, dst: nat, data: int, e: int, ts: nat)
    requires R.Shows(x, y)
    ensures R.Shows(PutEdge(x, src, dst, data, ts), PutEdge(y, src, dst, e, ts)) <==> data == e
  {
    var s, r, s', r' :=
      Slot(dst, data, Some(ts)), Slot(src, data, Some(ts)), Slot(dst, e, Some(ts)), Slot(src, e, Some(ts));
    PutIs(x, src, dst, data, ts);
    PutIs(y, src, dst, e, ts);
    ChangeShows(x, PutEdge(x, src, dst, data, ts), y, PutEdge(y, src, dst, e, ts), src, dst,
      Nothing(), s, Nothing(), r, Nothing(), s', Nothing(), r');
    Singles((dst, data), (dst, e));
    Singles((src, data), (src, e));
  }

  lemma Singles(p: (nat, int), q: (nat, int))
    ensures multiset{} + multiset{q} == multiset{} + multiset{p} <==> p == q
  {
    if p != q { assert (multiset{} + multiset{q})[q] != (multiset{} + multiset{p})[q]; }
  }

  /** An edge more than before is seen. */
  lemma PutDiffers(x: Table, y: Table, src: nat, dst: nat, data: int, ts: nat)
    requires R.Shows(x, y)
    ensures !R.Shows(x, PutEdge(y, src, dst, data, ts))
  {
    var z := PutEdge(y, src, dst, data, ts);
    ShowsAt(x, y, src);
    PutIs(y, src, dst, data, ts);
    ChangedAt(y.out, z.out, src, Nothing(), Slot(dst, data, Some(ts)), src, (dst, data));
    assert Visible(List(z.out, src))[(dst, data)] != Visible(List(x.out, src))[(dst, data)];
    if R.Shows(x, z) { ShowsAt(x, z, src); }
  }

  lemma RebuildPaired(t: Table)
    requires R.Paired(t)
    ensures R.Paired(R.Rebuild(t))
  {
    R.ShowsRefl(t);
    R.RebuildShows(t, t);
    ShownPaired(t, R.Rebuild(t));
  }

  lemma ShownPaired(x: Table, y: Table)
    requires R.Paired(x) && R.Shows(x, y)
    ensures R.Paired(y)
  {
    forall u: nat, w: nat, d: int ensures R.Seen(List(y.out, u), w, d) == R.Seen(List(y.inc, w), u, d) {
      PairedAt(x, u, w, d);
      ShowsAt(x, y, u);
      ShowsAt(x, y, w);
    }
  }

  lemma ShowsTrans(x: Table, y: Table, z: Table)
    requires R.Shows(x, y) && R.Shows(x, z)
    ensures R.Shows(y, z)
  {
    forall u: nat ensures Alike(y.out, z.out, u) && Alike(y.inc, z.inc, u) {
      ShowsAt(x, y, u);
      ShowsAt(x, z, u);
    }
    AlikeShows(y, z);
  }

  lemma ShowsBack(x: Table, y: Table)
    requires R.Shows(x, y)
    ensures R.Shows(y, x)
  {
    R.ShowsRefl(x);
    ShowsTrans(x, y, x);
  }

  /** With paired lists, what is seen from the sources decides. */
  lemma OutDecides(x: Table, y: Table)
    requires R.Paired(x) && R.Paired(y) && forall u: nat :: Alike(x.out, y.out, u)
    ensures R.Shows(x, y)
  {
    forall w: nat ensures Alike(x.inc, y.inc, w) {
      forall p: (nat, int) ensures Visible(List(x.inc, w))[p] == Visible(List(y.inc, w))[p] {
        PairedAt(x, p.0, w, p.1);
        PairedAt(y, p.0, w, p.1);
        assert Alike(x.out, y.out, p.0);
      }
    }
    AlikeShows(x, y);
  }

  // ------------------------------------------------------------------------------------
  // Values changed everywhere
  // ------------------------------------------------------------------------------------

  function Map<S, T>(f: S -> T, s: seq<S>): (r: seq<T>)
    ensures |r| == |s| && forall i | 0 <= i < |s| :: r[i] == f(s[i])
  {
    seq(|s|, i requires 0 <= i < |s| => f(s[i]))
  }

  lemma MapParts<S, T>(f: S -> T, a: seq<S>, b: seq<S>)
    ensures Map(f, a + b) == Map(f, a) + Map(f, b)
  {
  }

  function Rest<S>(s: seq<S>, i: nat): (r: seq<S>)
    requires i < |s|
    ensures |r| == |s| - 1
  {
    s[..i] + s[i + 1..]
  }

  lemma RestIs<S>(s: seq<S>, i: nat)
    requires i < |s|
    ensures multiset(s) == multiset(Rest(s, i)) + multiset{s[i]}
  {
    assert s == s[..i] + [s[i]] + s[i + 1..];
  }

  lemma MapRest<S, T>(f: S -> T, s: seq<S>, i: nat)
    requires i < |s|
    ensures multiset(Map(f, s)) == multiset(Map(f, Rest(s, i))) + multiset{f(s[i])}
  {
    RestIs(Map(f, s), i);
    assert Map(f, Rest(s, i)) == Rest(Map(f, s), i);
  }

  lemma TakeOne<S>(m: multiset<S>, n: multiset<S>, x: S)
    requires m + multiset{x} == n + multiset{x}
    ensures m == n
  {
    forall e ensures m[e] == n[e] { assert (m + multiset{x})[e] == (n + multiset{x})[e]; }
  }

  lemma SameRest<S>(a: seq<S>, b: seq<S>) returns (i: nat)
    requires multiset(a) == multiset(b) && a != []
    ensures i < |b| && b[i] == a[0] && multiset(Rest(a, 0)) == multiset(Rest(b, i))
  {
    assert a[0] in multiset(b);
    i :| i < |b| && b[i] == a[0];
    RestIs(a, 0);
    RestIs(b, i);
    TakeOne(multiset(Rest(a, 0)), multiset(Rest(b, i)), a[0]);
  }

  /** Equal up to order stays so. */
  lemma {:induction false} MapSame<S, T>(f: S -> T, a: seq<S>, b: seq<S>)
    requires multiset(a) == multiset(b)
    ensures multiset(Map(f, a)) == multiset(Map(f, b))
    decreases |a|
  {
    if a == [] {
      assert |b| == |multiset(b)|;
      assert Map(f, a) == Map(f, b);
    } else {
      var i := SameRest(a, b);
      MapSame(f, Rest(a, 0), Rest(b, i));
      MapRest(f, a, 0);
      MapRest(f, b, i);
    }
  }

  function Valued(f: int -> int, s: Slot): (r: Slot) { s.(data := f(s.data)) }

  function ValuedPair(f: int -> int, p: (nat, int)): (r: (nat, int)) { (p.0, f(p.1)) }

  function Revalue(f: int -> int, a: Adj): (r: Adj) { map u | u in a :: Map(s => Valued(f, s), a[u]) }

  /** Every edge with new values. */
  function RevalueBoth(f: int -> int, t: Table): (r: Table) { Table(Revalue(f, t.out), Revalue(f, t.inc)) }

  lemma RevalueAt(f: int -> int, a: Adj, u: nat)
    ensures List(Revalue(f, a), u) == Map(s => Valued(f, s), List(a, u))
  {
  }

  lemma {:induction false} RevaluedSees(f: int -> int, l: seq<Slot>)
    ensures R.Neighbours(Map(s => Valued(f, s), l)) == Map(p => ValuedPair(f, p), R.Neighbours(l))
  {
    if l != [] {
      var n := |l| - 1;
      RevaluedSees(f, l[..n]);
      assert Map(s => Valued(f, s), l) == Map(s => Valued(f, s), l[..n]) + [Valued(f, l[n])];
      R.NeighboursLast(Map(s => Valued(f, s), l[..n]), Valued(f, l[n]));
      MapParts(p => ValuedPair(f, p), R.Neighbours(l[..n]), [(l[n].nbr, l[n].data)]);
    }
  }

  lemma RevalueAlike(f: int -> int, a: Adj, b: Adj, u: nat)
    requires Alike(a, b, u)
    ensures Alike(Revalue(f, a), Revalue(f, b), u)
  {
    RevalueAt(f, a, u);
    RevalueAt(f, b, u);
    RevaluedSees(f, List(a, u));
    RevaluedSees(f, List(b, u));
    MapSame(p => ValuedPair(f, p), R.Neighbours(List(a, u)), R.Neighbours(List(b, u)));
  }

  lemma RevalueShows(f: int -> int, x: Table, y: Table)
    requires R.Shows(x, y)
    ensures R.Shows(RevalueBoth(f, x), RevalueBoth(f, y))
  {
    forall u: nat
      ensures Alike(Revalue(f, x.out), Revalue(f, y.out), u) && Alike(Revalue(f, x.inc), Revalue(f, y.inc), u)
    {
      ShowsAt(x, y, u);
      RevalueAlike(f, x.out, y.out, u);
      RevalueAlike(f, x.inc, y.inc, u);
    }
    AlikeShows(RevalueBoth(f, x), RevalueBoth(f, y));
  }

  /** The values of the visible edges to one neighbour. */
  function Datas(s: seq<(nat, int)>, nbr: nat): (r: seq<int>) {
    if s == [] then []
    else Datas(s[..|s| - 1], nbr) + (if s[|s| - 1].0 == nbr then [s[|s| - 1].1] else [])
  }

  lemma {:induction false} DatasCount(s: seq<(nat, int)>, nbr: nat, d: int)
    ensures multiset(Datas(s, nbr))[d] == multiset(s)[(nbr, d)]
  {
    if s != [] {
      DatasCount(s[..|s| - 1], nbr, d);
      assert s == s[..|s| - 1] + [s[|s| - 1]];
    }
  }

  lemma {:induction false} DatasMap(f: int -> int, s: seq<(nat, int)>, nbr: nat)
    ensures Datas(Map(p => ValuedPair(f, p), s), nbr) == Map(f, Datas(s, nbr))
  {
    if s != [] {
      var n := |s| - 1;
      DatasMap(f, s[..n], nbr);
      assert Map(p => ValuedPair(f, p), s)[..n] == Map(p => ValuedPair(f, p), s[..n]);
      MapParts(f, Datas(s[..n], nbr), if s[n].0 == nbr then [s[n].1] else []);
    }
  }

  lemma RevalueCount(f: int -> int, a: Adj, u: nat, nbr: nat, d: int)
    ensures R.Seen(List(Revalue(f, a), u), nbr, d) == multiset(Map(f, Datas(R.Neighbours(List(a, u)), nbr)))[d]
  {
    RevalueAt(f, a, u);
    RevaluedSees(f, List(a, u));
    DatasCount(R.Neighbours(List(Revalue(f, a), u)), nbr, d);
    DatasMap(f, R.Neighbours(List(a, u)), nbr);
  }

  lemma SameDatas(t: Table, u: nat, w: nat)
    requires R.Paired(t)
    ensures multiset(Datas(R.Neighbours(List(t.out, u)), w)) == multiset(Datas(R.Neighbours(List(t.inc, w)), u))
  {
    var a, b := R.Neighbours(List(t.out, u)), R.Neighbours(List(t.inc, w));
    forall e: int ensures multiset(Datas(a, w))[e] == multiset(Datas(b, u))[e] {
      DatasCount(a, w, e);
      DatasCount(b, u, e);
      PairedAt(t, u, w, e);
    }
  }

  lemma RevaluePaired(f: int -> int, t: Table)
    requires R.Paired(t)
    ensures R.Paired(RevalueBoth(f, t))
  {
    forall u: nat, w: nat, d: int
      ensures R.Seen(List(Revalue(f, t.out), u), w, d) == R.Seen(List(Revalue(f, t.inc), w), u, d)
    {
      RevalueCount(f, t.out, u, w, d);
      RevalueCount(f, t.inc, w, u, d);
      SameDatas(t, u, w);
      MapSame(f, Datas(R.Neighbours(List(t.out, u)), w), Datas(R.Neighbours(List(t.inc, w)), u));
    }
  }
}
