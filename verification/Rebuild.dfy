/**
 * What a reader sees of one edge table, and the rebuild that adding the first columns to an edge
 * type brings: every visible edge is exported by source and put into fresh lists, so that offsets
 * recorded before may name other slots afterwards.
 */
module Rebuild {
  import opened Wrappers
  import opened Adjacency

  // ------------------------------------------------------------------------------------
  // What a reader sees
  // ------------------------------------------------------------------------------------

  /** The visible neighbours in order, with their payload. */
  function Neighbours(l: seq<Slot>): (r: seq<(nat, int)>) {
    if l == [] then []
    else
      var s, r := l[|l| - 1], Neighbours(l[..|l| - 1]);
      if Live(s) then r + [(s.nbr, s.data)] else r
  }

  /** How often a neighbour with this payload is visible. */
  function Seen(l: seq<Slot>, nbr: nat, data: int): (n: nat) { multiset(Neighbours(l))[(nbr, data)] }

  /** Both tables show every vertex the same edges, in whatever order. */
  ghost predicate Shows(x: Table, y: Table) {
    forall u: nat ::
      && multiset(Neighbours(List(x.out, u))) == multiset(Neighbours(List(y.out, u)))
      && multiset(Neighbours(List(x.inc, u))) == multiset(Neighbours(List(y.inc, u)))
  }

  lemma {:induction false} DeadTail(l: seq<Slot>, n: nat)
    requires n <= |l| && forall k | n <= k < |l| :: !Live(l[k])
    ensures Neighbours(l) == Neighbours(l[..n])
    decreases |l|
  {
    if n < |l| {
      var p := l[..|l| - 1];
      assert p[..n] == l[..n];
      DeadTail(p, n);
    } else {
      assert l[..n] == l;
    }
  }

  lemma {:induction false} SameNeighbours(x: seq<Slot>, y: seq<Slot>)
    requires SameList(x, y)
    ensures Neighbours(x) == Neighbours(y)
    decreases |x|
  {
    DeadTail(y, |x|);
    var z := y[..|x|];
    if x != [] {
      SameNeighbours(x[..|x| - 1], z[..|x| - 1]);
      assert z[|x| - 1] == y[|x| - 1];
    }
  }

  lemma SameTableShows(x: Table, y: Table)
    requires SameTable(x, y)
    ensures Shows(x, y)
  {
    SameTableIs(x, y);
    forall u: nat
      ensures Neighbours(List(x.out, u)) == Neighbours(List(y.out, u))
      ensures Neighbours(List(x.inc, u)) == Neighbours(List(y.inc, u))
    {
      SameNeighbours(List(x.out, u), List(y.out, u));
      SameNeighbours(List(x.inc, u), List(y.inc, u));
    }
  }

  lemma {:induction false} NothingSeen(l: seq<Slot>)
    ensures Neighbours(l) == [] <==> forall k | 0 <= k < |l| :: !Live(l[k])
  {
    if l != [] {
      NothingSeen(l[..|l| - 1]);
      assert l == l[..|l| - 1] + [l[|l| - 1]];
    }
  }

  // A vertex without visible edges has none in any table that shows the same.

  lemma DropOutSparesShown(t: Table, y: Table, e: Ends, v: nat)
    requires Shows(t, y) && Agree(t, e, Nowhere) && (e == From(v) || e == At(v))
    ensures DropOut(y, v, 0) == Some(y)
  {
    forall j: nat | j < |List(t.out, v)| ensures !Live(List(t.out, v)[j]) {
      assert Live(List(t.out, v)[j]) ==> Hits(e, v, List(t.out, v)[j].nbr);
    }
    NothingSeen(List(t.out, v));
    assert multiset(Neighbours(List(y.out, v))) == multiset([]);
    assert |Neighbours(List(y.out, v))| == |multiset(Neighbours(List(y.out, v)))|;
    NothingSeen(List(y.out, v));
    DropOutNone(y, v, 0);
  }

  lemma DropInSparesShown(t: Table, y: Table, e: Ends, v: nat)
    requires TableOk(t) && Shows(t, y) && Agree(t, e, Nowhere) && (e == Into(v) || e == At(v))
    ensures DropIn(y, v) == Some(y)
  {
    FlipOk(t);
    FlipAgree(t, e, Nowhere);
    DropOutSparesShown(Flip(t), Flip(y), FlipEnds(e), v);
  }

  // ------------------------------------------------------------------------------------
  // Both sides show the same edges
  // ------------------------------------------------------------------------------------

  /** The stamps of the visible slots that look alike but for the stamp. */
  function Stamps(l: seq<Slot>, nbr: nat, data: int): (r: multiset<nat>) {
    if l == [] then multiset{}
    else
      var s := l[|l| - 1];
      Stamps(l[..|l| - 1], nbr, data)
        + (if Live(s) && s.nbr == nbr && s.data == data then multiset{s.stamp.value} else multiset{})
  }

  lemma TallyLast(l: seq<Slot>, x: Slot)
    requires l != []
    ensures Tally(l, x) == Tally(l[..|l| - 1], x) + (if l[|l| - 1] == x then 1 else 0)
  {
    assert l == l[..|l| - 1] + [l[|l| - 1]];
  }

  lemma {:induction false} StampsTally(l: seq<Slot>, nbr: nat, data: int, ts: nat)
    ensures Stamps(l, nbr, data)[ts] == Tally(l, Slot(nbr, data, Some(ts)))
  {
    if l != [] {
      StampsTally(l[..|l| - 1], nbr, data, ts);
      TallyLast(l, Slot(nbr, data, Some(ts)));
    }
  }

  lemma {:induction false} StampsSeen(l: seq<Slot>, nbr: nat, data: int)
    ensures |Stamps(l, nbr, data)| == Seen(l, nbr, data)
  {
    if l != [] { StampsSeen(l[..|l| - 1], nbr, data); }
  }

  /** An edge is seen as often from its source as from its target. */
  lemma SeenFromBothSides(t: Table, u: nat, w: nat, data: int)
    requires TableOk(t)
    ensures Seen(List(t.out, u), w, data) == Seen(List(t.inc, w), u, data)
  {
    var a, b := Stamps(List(t.out, u), w, data), Stamps(List(t.inc, w), u, data);
    forall ts: nat ensures a[ts] == b[ts] {
      StampsTally(List(t.out, u), w, data, ts);
      StampsTally(List(t.inc, w), u, data, ts);
      assert Balanced(t, u, Slot(w, data, Some(ts)));
    }
    assert a == b;
    StampsSeen(List(t.out, u), w, data);
    StampsSeen(List(t.inc, w), u, data);
  }

  /** Every edge is seen as often from its source as from its target. */
  ghost predicate Paired(t: Table) {
    forall u: nat, w: nat, data: int :: Seen(List(t.out, u), w, data) == Seen(List(t.inc, w), u, data)
  }

  lemma SeenAlike(t: Table, u: nat, w: nat, data: int)
    requires Paired(t)
    ensures Seen(List(t.out, u), w, data) == Seen(List(t.inc, w), u, data)
  {
  }

  lemma OkIsPaired(t: Table)
    requires TableOk(t)
    ensures Paired(t)
  {
    forall u: nat, w: nat, data: int ensures Seen(List(t.out, u), w, data) == Seen(List(t.inc, w), u, data) {
      SeenFromBothSides(t, u, w, data);
    }
  }

  // ------------------------------------------------------------------------------------
  // The rebuild
  // ------------------------------------------------------------------------------------

  /** The visible slots of a list, with the first stamp. */
  function Squeeze(l: seq<Slot>): (r: seq<Slot>) {
    if l == [] then []
    else
      var s, r := l[|l| - 1], Squeeze(l[..|l| - 1]);
      if Live(s) then r + [s.(stamp := Some(0))] else r
  }

  /** The visible slots of u's list that name w, as w's incoming list will hold them. */
  function InFrom(l: seq<Slot>, w: nat, u: nat): (r: seq<Slot>) {
    if l == [] then []
    else
      var s, r := l[|l| - 1], InFrom(l[..|l| - 1], w, u);
      if Live(s) && s.nbr == w then r + [Slot(u, s.data, Some(0))] else r
  }

  /** The incoming list of w in the order of the export: by source, then by offset. */
  function Exported(out: Adj, w: nat, n: nat): (r: seq<Slot>) {
    if n == 0 then [] else Exported(out, w, n - 1) + InFrom(List(out, n - 1), w, n - 1)
  }

  lemma {:induction false} SomeBound(s: set<nat>)
    requires s != {}
    ensures exists k :: k in s && forall j | j in s :: j <= k
  {
    var i :| i in s;
    var r := s - {i};
    if r == {} {
      forall j | j in s ensures j == i { assert j !in r; }
    } else {
      SomeBound(r);
      var k :| k in r && forall j | j in r :: j <= k;
      var m := if i <= k then k else i;
      forall j | j in s ensures j <= m { assert j == i || j in r; }
      assert m in s;
    }
  }

  /** One more than the largest vertex with a list. */
  function Bound(a: Adj): (n: nat)
    ensures forall u | u in a :: u < n
  {
    if a.Keys == {} then 0 else SomeBound(a.Keys); var k :| k in a.Keys && forall j | j in a.Keys :: j <= k; k + 1
  }

  function Rebuild(t: Table): (r: Table) {
    Table(map u | u in t.out :: Squeeze(t.out[u]), map w | w in t.inc :: Exported(t.out, w, Bound(t.out)))
  }

  // Squeezing keeps what is seen.

  lemma Front<T>(a: seq<T>, x: T)
    ensures (a + [x])[..|a|] == a
  {
  }

  lemma NeighboursLast(a: seq<Slot>, s: Slot)
    ensures Neighbours(a + [s]) == if Live(s) then Neighbours(a) + [(s.nbr, s.data)] else Neighbours(a)
  {
    Front(a, s);
  }

  lemma SqueezeLast(a: seq<Slot>, s: Slot)
    ensures Squeeze(a + [s]) == if Live(s) then Squeeze(a) + [s.(stamp := Some(0))] else Squeeze(a)
  {
    Front(a, s);
  }

  lemma InFromLast(a: seq<Slot>, s: Slot, w: nat, u: nat)
    ensures InFrom(a + [s], w, u)
            == if Live(s) && s.nbr == w then InFrom(a, w, u) + [Slot(u, s.data, Some(0))] else InFrom(a, w, u)
  {
    Front(a, s);
  }

  lemma {:induction false} SqueezeSees(l: seq<Slot>)
    ensures Neighbours(Squeeze(l)) == Neighbours(l)
    ensures forall k | 0 <= k < |Squeeze(l)| :: Squeeze(l)[k].stamp == Some(0)
  {
    if l != [] {
      SqueezeSees(l[..|l| - 1]);
      NeighboursLast(Squeeze(l[..|l| - 1]), l[|l| - 1].(stamp := Some(0)));
    }
  }

  lemma {:induction false} SqueezeTally(l: seq<Slot>, nbr: nat, data: int)
    ensures Tally(Squeeze(l), Slot(nbr, data, Some(0))) == Seen(l, nbr, data)
  {
    if l != [] { SqueezeTally(l[..|l| - 1], nbr, data); }
  }

  lemma {:induction false} InFromTally(l: seq<Slot>, w: nat, u: nat, x: nat, data: int)
    ensures Tally(InFrom(l, w, u), Slot(x, data, Some(0))) == if x == u then Seen(l, w, data) else 0
  {
    if l != [] { InFromTally(l[..|l| - 1], w, u, x, data); }
  }

  /** Every source adds what it shows of w. */
  lemma ExportedTallyNext(out: Adj, w: nat, n: nat, x: nat, data: int)
    requires n > 0
    ensures var slot := Slot(x, data, Some(0));
      Tally(Exported(out, w, n), slot)
      == Tally(Exported(out, w, n - 1), slot) + (if x == n - 1 then Seen(List(out, x), w, data) else 0)
  {
    var seen := if x == n - 1 then Seen(List(out, x), w, data) else 0;
    InFromTally(List(out, n - 1), w, n - 1, x, data);
    TallyOf(Exported(out, w, n), Exported(out, w, n - 1), InFrom(List(out, n - 1), w, n - 1), Slot(x, data, Some(0)),
      seen);
  }

  lemma TallyOf(e: seq<Slot>, a: seq<Slot>, b: seq<Slot>, x: Slot, n: nat)
    requires e == a + b && Tally(b, x) == n
    ensures Tally(e, x) == Tally(a, x) + n
  {
  }

  lemma {:induction false} ExportedTally(out: Adj, w: nat, n: nat, x: nat, data: int)
    ensures Tally(Exported(out, w, n), Slot(x, data, Some(0))) == if x < n then Seen(List(out, x), w, data) else 0
  {
    if n > 0 {
      ExportedTally(out, w, n - 1, x, data);
      ExportedTallyNext(out, w, n, x, data);
    }
  }

  lemma {:induction false} InFromLive(l: seq<Slot>, w: nat, u: nat)
    ensures forall k | 0 <= k < |InFrom(l, w, u)| :: InFrom(l, w, u)[k].stamp == Some(0)
  {
    if l != [] { InFromLive(l[..|l| - 1], w, u); }
  }

  lemma {:induction false} ExportedLive(out: Adj, w: nat, n: nat)
    ensures forall k | 0 <= k < |Exported(out, w, n)| :: Exported(out, w, n)[k].stamp == Some(0)
  {
    if n > 0 {
      ExportedLive(out, w, n - 1);
      InFromLive(List(out, n - 1), w, n - 1);
    }
  }

  /** In lists where every slot has the first stamp, what is seen is what is there. */
  lemma {:induction false} SeenIsTally(l: seq<Slot>, nbr: nat, data: int)
    requires forall k | 0 <= k < |l| :: l[k].stamp == Some(0)
    ensures Seen(l, nbr, data) == Tally(l, Slot(nbr, data, Some(0)))
  {
    if l != [] {
      SeenIsTally(l[..|l| - 1], nbr, data);
      TallyLast(l, Slot(nbr, data, Some(0)));
    }
  }

  /** The exported list of w shows what the sources show of w. */
  lemma ExportedSeen(out: Adj, w: nat, x: nat, data: int)
    ensures Seen(Exported(out, w, Bound(out)), x, data) == Seen(List(out, x), w, data)
  {
    ExportedLive(out, w, Bound(out));
    SeenIsTally(Exported(out, w, Bound(out)), x, data);
    ExportedTally(out, w, Bound(out), x, data);
    assert x >= Bound(out) ==> List(out, x) == [];
  }

  lemma RebuildOut(t: Table, u: nat)
    ensures List(Rebuild(t).out, u) == Squeeze(List(t.out, u))
  {
  }

  lemma RebuildInc(t: Table, w: nat)
    ensures List(Rebuild(t).inc, w) == if w in t.inc then Exported(t.out, w, Bound(t.out)) else []
  {
  }

  lemma SeenEverywhere(a: seq<Slot>, b: seq<Slot>)
    requires forall nbr: nat, data: int :: Seen(a, nbr, data) == Seen(b, nbr, data)
    ensures multiset(Neighbours(a)) == multiset(Neighbours(b))
  {
    var m, n := multiset(Neighbours(a)), multiset(Neighbours(b));
    forall e: (nat, int) ensures m[e] == n[e] { assert Seen(a, e.0, e.1) == Seen(b, e.0, e.1); }
  }

  lemma RebuildShowsIn(t: Table, y: Table, w: nat)
    requires Paired(t) && Shows(t, y)
    ensures multiset(Neighbours(List(t.inc, w))) == multiset(Neighbours(List(Rebuild(y).inc, w)))
  {
    RebuildInc(y, w);
    var a, b := List(t.inc, w), List(Rebuild(y).inc, w);
    if w in y.inc {
      forall nbr: nat, data: int ensures Seen(a, nbr, data) == Seen(b, nbr, data) {
        ExportedSeen(y.out, w, nbr, data);
        assert Seen(List(t.out, nbr), w, data) == Seen(List(t.inc, w), nbr, data);
        assert multiset(Neighbours(List(t.out, nbr))) == multiset(Neighbours(List(y.out, nbr)));
      }
      SeenEverywhere(a, b);
    }
  }

  /** A rebuild of a table that shows the same edges shows them too. */
  lemma RebuildShows(t: Table, y: Table)
    requires Paired(t) && Shows(t, y)
    ensures Shows(t, Rebuild(y))
  {
    forall u: nat
      ensures multiset(Neighbours(List(t.out, u))) == multiset(Neighbours(List(Rebuild(y).out, u)))
      ensures multiset(Neighbours(List(t.inc, u))) == multiset(Neighbours(List(Rebuild(y).inc, u)))
    {
      RebuildOut(y, u);
      SqueezeSees(List(y.out, u));
      RebuildShowsIn(t, y, u);
    }
  }

  lemma ShowsRefl(t: Table)
    ensures Shows(t, t)
  {
  }

  /** The rebuilt lists agree on the visible edges. */
  lemma RebuildOk(t: Table)
    requires TableOk(t)
    ensures TableOk(Rebuild(t))
  {
    var r := Rebuild(t);
    forall u: nat, x: Slot | Live(x) ensures Balanced(r, u, x) {
      RebuildOut(t, u);
      RebuildInc(t, x.nbr);
      if x.stamp == Some(0) {
        SqueezeTally(List(t.out, u), x.nbr, x.data);
        ExportedTally(t.out, x.nbr, Bound(t.out), u, x.data);
        SeenFromBothSides(t, u, x.nbr, x.data);
        assert u >= Bound(t.out) ==> List(t.out, u) == [];
      } else {
        OtherStamp(List(r.out, u), x, List(t.out, u));
        ExportedLive(t.out, x.nbr, Bound(t.out));
        assert x.(nbr := u) !in List(r.inc, x.nbr);
      }
    }
  }

  lemma OtherStamp(l: seq<Slot>, x: Slot, from_: seq<Slot>)
    requires l == Squeeze(from_) && x.stamp != Some(0)
    ensures Tally(l, x) == 0
  {
    SqueezeSees(from_);
    assert x !in l;
  }

  // ------------------------------------------------------------------------------------
  // Offsets across a rebuild
  // ------------------------------------------------------------------------------------

  predicate AllLive(l: seq<Slot>) { forall k | 0 <= k < |l| :: Live(l[k]) }

  predicate SamePayload(x: seq<Slot>, y: seq<Slot>) {
    |x| == |y| && forall k | 0 <= k < |x| :: x[k].nbr == y[k].nbr && x[k].data == y[k].data
  }

  /** No slot is deleted, and every incoming list is in the order of the export. */
  ghost predicate InOrder(t: Table) {
    forall u: nat ::
      AllLive(List(t.out, u)) && AllLive(List(t.inc, u)) && SamePayload(List(t.inc, u), List(Rebuild(t).inc, u))
  }

  lemma {:induction false} SqueezeSize(l: seq<Slot>)
    ensures |Squeeze(l)| <= |l| && (|Squeeze(l)| == |l| <==> AllLive(l))
    ensures AllLive(l) ==> SamePayload(l, Squeeze(l))
  {
    if l != [] {
      SqueezeSize(l[..|l| - 1]);
      assert l == l[..|l| - 1] + [l[|l| - 1]];
    }
  }

  lemma SameOut(l: seq<Slot>)
    ensures SameList(l, Squeeze(l)) <==> AllLive(l)
  {
    SqueezeSize(l);
    SqueezeSees(l);
  }

  lemma SameIn(l: seq<Slot>, r: seq<Slot>)
    requires forall k | 0 <= k < |r| :: r[k].stamp == Some(0)
    ensures SameList(l, r) <==> AllLive(l) && SamePayload(l, r)
  {
    assert SameList(l, r) && |l| < |r| ==> Live(r[|l|]);
  }

  /** A rebuild leaves every slot where it was exactly if no slot is deleted and the lists are in order. */
  lemma RebuildKeepsExact(t: Table)
    ensures SameTable(t, Rebuild(t)) <==> InOrder(t)
  {
    SameTableIs(t, Rebuild(t));
    forall u: nat
      ensures SameList(List(t.out, u), List(Rebuild(t).out, u)) <==> AllLive(List(t.out, u))
      ensures SameList(List(t.inc, u), List(Rebuild(t).inc, u))
              <==> AllLive(List(t.inc, u)) && SamePayload(List(t.inc, u), List(Rebuild(t).inc, u))
    {
      RebuildOut(t, u);
      RebuildInc(t, u);
      SameOut(List(t.out, u));
      ExportedLive(t.out, u, Bound(t.out));
      SameIn(List(t.inc, u), List(Rebuild(t).inc, u));
    }
  }

  // A second rebuild gives the same lists.

  lemma {:induction false} SqueezeTail(l: seq<Slot>, n: nat)
    requires n <= |l| && forall k | n <= k < |l| :: !Live(l[k])
    ensures Squeeze(l) == Squeeze(l[..n])
    decreases |l|
  {
    if n < |l| {
      var p := l[..|l| - 1];
      assert p[..n] == l[..n];
      SqueezeTail(p, n);
    } else {
      assert l[..n] == l;
    }
  }

  lemma {:induction false} SqueezeSame(x: seq<Slot>, y: seq<Slot>)
    requires SameList(x, y)
    ensures Squeeze(x) == Squeeze(y)
    decreases |x|
  {
    SqueezeTail(y, |x|);
    var z := y[..|x|];
    if x != [] {
      SqueezeSame(x[..|x| - 1], z[..|x| - 1]);
      assert z[|x| - 1] == y[|x| - 1];
    }
  }

  lemma {:induction false} SqueezeTwice(l: seq<Slot>)
    ensures Squeeze(Squeeze(l)) == Squeeze(l)
  {
    if l != [] {
      SqueezeTwice(l[..|l| - 1]);
      SqueezeLast(Squeeze(l[..|l| - 1]), l[|l| - 1].(stamp := Some(0)));
    }
  }

  lemma {:induction false} InFromSqueeze(l: seq<Slot>, w: nat, u: nat)
    ensures InFrom(Squeeze(l), w, u) == InFrom(l, w, u)
  {
    if l != [] {
      InFromSqueeze(l[..|l| - 1], w, u);
      InFromLast(Squeeze(l[..|l| - 1]), l[|l| - 1].(stamp := Some(0)), w, u);
    }
  }

  lemma InFromSame(a: seq<Slot>, b: seq<Slot>, w: nat, u: nat)
    requires Squeeze(a) == Squeeze(b)
    ensures InFrom(a, w, u) == InFrom(b, w, u)
  {
    InFromSqueeze(a, w, u);
    InFromSqueeze(b, w, u);
  }

  ghost predicate SameSqueezed(a: Adj, b: Adj) { forall u: nat :: Squeeze(List(a, u)) == Squeeze(List(b, u)) }

  /** The export depends on the visible slots only. */
  lemma {:induction false} ExportedSame(a: Adj, b: Adj, w: nat, n: nat)
    requires SameSqueezed(a, b)
    ensures Exported(a, w, n) == Exported(b, w, n)
  {
    if n > 0 {
      ExportedSame(a, b, w, n - 1);
      InFromSame(List(a, n - 1), List(b, n - 1), w, n - 1);
    }
  }

  lemma {:induction false} ExportedBeyond(a: Adj, w: nat, n: nat)
    requires Bound(a) <= n
    ensures Exported(a, w, n) == Exported(a, w, Bound(a))
  {
    if Bound(a) < n {
      ExportedBeyond(a, w, n - 1);
      assert List(a, n - 1) == [];
    }
  }

  lemma ExportedAgain(a: Adj, b: Adj, w: nat)
    requires SameSqueezed(a, b)
    ensures Exported(a, w, Bound(a)) == Exported(b, w, Bound(b))
  {
    var n := if Bound(a) < Bound(b) then Bound(b) else Bound(a);
    ExportedBeyond(a, w, n);
    ExportedBeyond(b, w, n);
    ExportedSame(a, b, w, n);
  }

  /** Nothing is exported into a vertex whose incoming list is empty. */
  lemma NoSlots(t: Table, w: nat)
    requires Paired(t) && List(t.inc, w) == []
    ensures Exported(t.out, w, Bound(t.out)) == []
  {
    var l := Exported(t.out, w, Bound(t.out));
    if l != [] {
      ExportedLive(t.out, w, Bound(t.out));
      ExportedSeen(t.out, w, l[0].nbr, l[0].data);
      SeenIsTally(l, l[0].nbr, l[0].data);
      assert l[0] in multiset(l);
      SeenAlike(t, l[0].nbr, w, l[0].data);
    }
  }

  /** Any table with the rebuilt slots is rebuilt to the same lists. */
  lemma RebuildAgain(t: Table, y: Table)
    requires TableOk(t) && SameTable(Rebuild(t), y)
    ensures forall u: nat ::
      List(Rebuild(y).out, u) == List(Rebuild(t).out, u) && List(Rebuild(y).inc, u) == List(Rebuild(t).inc, u)
  {
    OkIsPaired(t);
    SameTableIs(Rebuild(t), y);
    forall u: nat ensures Squeeze(List(y.out, u)) == Squeeze(List(t.out, u)) {
      RebuildOut(t, u);
      SqueezeSame(List(Rebuild(t).out, u), List(y.out, u));
      SqueezeTwice(List(t.out, u));
    }
    forall u: nat
      ensures List(Rebuild(y).out, u) == List(Rebuild(t).out, u) && List(Rebuild(y).inc, u) == List(Rebuild(t).inc, u)
    {
      RebuildOut(t, u);
      RebuildOut(y, u);
      RebuildInc(t, u);
      RebuildInc(y, u);
      ExportedAgain(t.out, y.out, u);
      assert SameList(List(Rebuild(t).inc, u), List(y.inc, u));
      if u !in t.inc { NoSlots(t, u); }
    }
  }

  lemma SameListsSame(t: Table, x: Table, y: Table)
    requires forall u: nat :: List(x.out, u) == List(y.out, u) && List(x.inc, u) == List(y.inc, u)
    ensures SameTable(t, x) <==> SameTable(t, y)
  {
    SameTableIs(t, x);
    SameTableIs(t, y);
  }

  /** Any table with the same slots is rebuilt to the same lists. */
  lemma RebuildSame(t: Table, y: Table)
    requires Paired(t) && SameTable(t, y)
    ensures forall u: nat ::
      List(Rebuild(y).out, u) == List(Rebuild(t).out, u) && List(Rebuild(y).inc, u) == List(Rebuild(t).inc, u)
  {
    SameTableIs(t, y);
    forall u: nat ensures Squeeze(List(y.out, u)) == Squeeze(List(t.out, u)) {
      SqueezeSame(List(t.out, u), List(y.out, u));
    }
    forall u: nat
      ensures List(Rebuild(y).out, u) == List(Rebuild(t).out, u) && List(Rebuild(y).inc, u) == List(Rebuild(t).inc, u)
    {
      RebuildOut(t, u);
      RebuildOut(y, u);
      RebuildInc(t, u);
      RebuildInc(y, u);
      ExportedAgain(t.out, y.out, u);
      assert SameList(List(t.inc, u), List(y.inc, u));
      if List(t.inc, u) == [] { NoSlots(t, u); }
    }
  }

  /** Rebuilt once: every slot is where it was exactly if none was deleted and the lists were in order. */
  lemma RebuiltOnceExact(t: Table, y: Table)
    requires TableOk(t) && SameTable(t, y)
    ensures SameTable(t, Rebuild(y)) <==> InOrder(t)
  {
    OkIsPaired(t);
    RebuildSame(t, y);
    SameListsSame(t, Rebuild(y), Rebuild(t));
    RebuildKeepsExact(t);
  }

  /**
   * Rebuilt when the columns come and again when they go: every slot is where it was exactly if
   * none was deleted and the lists were in order.
   */
  lemma RebuiltTwiceExact(t: Table, y: Table)
    requires TableOk(t) && SameTable(Rebuild(t), y)
    ensures SameTable(t, Rebuild(y)) <==> InOrder(t)
  {
    RebuildAgain(t, y);
    SameListsSame(t, Rebuild(y), Rebuild(t));
    RebuildKeepsExact(t);
  }
}
