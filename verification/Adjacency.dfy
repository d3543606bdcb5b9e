/**
 * The two adjacency lists of one edge triplet, addressed by raw offsets: deleting and reviving
 * slots, the search that pairs an outgoing slot with its incoming one, and what a vertex
 * removal captures of them.
 */
module Adjacency {
  import opened Wrappers

  /** A deleted slot has no stamp; its neighbour and payload stay. */
  datatype Slot = Slot(nbr: nat, data: int, stamp: Option<nat>)

  type Adj = map<nat, seq<Slot>>

  datatype Table = Table(out: Adj, inc: Adj)

  /** An edge as a removal records it: both ends and the raw offset in either list. */
  datatype Cap = Cap(src: nat, dst: nat, oe: nat, ie: nat)

  predicate Live(s: Slot) { s.stamp.Some? }

  function List(a: Adj, v: nat): (l: seq<Slot>) { if v in a then a[v] else [] }

  function Flip(t: Table): (f: Table) { Table(t.inc, t.out) }

  // ------------------------------------------------------------------------------------
  // Slots
  // ------------------------------------------------------------------------------------

  /** delete_edge: out of range throws, an already deleted slot is only reported. */
  function Kill(a: Adj, v: nat, k: nat): (r: Option<Adj>) {
    if k < |List(a, v)| then Some(a[v := List(a, v)[k := List(a, v)[k].(stamp := None)]]) else None
  }

  /** revert_delete_edge: throws unless the slot is deleted and names the neighbour. */
  function Revive(a: Adj, v: nat, nbr: nat, k: nat, ts: nat): (r: Option<Adj>) {
    if k < |List(a, v)| && List(a, v)[k].nbr == nbr && !Live(List(a, v)[k])
    then Some(a[v := List(a, v)[k := List(a, v)[k].(stamp := Some(ts))]]) else None
  }

  function DeleteEdge(t: Table, e: Cap): (r: Option<Table>) {
    match (Kill(t.out, e.src, e.oe), Kill(t.inc, e.dst, e.ie))
    case (Some(o), Some(i)) => Some(Table(o, i))
    case _ => None
  }

  function RevertDeleteEdge(t: Table, e: Cap, ts: nat): (r: Option<Table>) {
    match (Revive(t.out, e.src, e.dst, e.oe, ts), Revive(t.inc, e.dst, e.src, e.ie, ts))
    case (Some(o), Some(i)) => Some(Table(o, i))
    case _ => None
  }

  // ------------------------------------------------------------------------------------
  // The search for the other slot of an edge
  // ------------------------------------------------------------------------------------

  function Candidates(l: seq<Slot>, nbr: nat, n: nat): (ks: seq<nat>)
    requires n <= |l|
    ensures forall i | 0 <= i < |ks| :: ks[i] < n && Live(l[ks[i]]) && l[ks[i]].nbr == nbr
    ensures forall k | 0 <= k < n && Live(l[k]) && l[k].nbr == nbr :: k in ks
    ensures forall i, j | 0 <= i < j < |ks| :: ks[i] < ks[j]
  {
    if n == 0 then []
    else Candidates(l, nbr, n - 1) + (if Live(l[n - 1]) && l[n - 1].nbr == nbr then [n - 1] else [])
  }

  function FirstExact(l: seq<Slot>, ks: seq<nat>, s: Slot): (r: Option<nat>)
    requires forall i | 0 <= i < |ks| :: ks[i] < |l|
    ensures r.Some? ==> r.value in ks
  {
    if ks == [] then None
    else if l[ks[0]].data == s.data && l[ks[0]].stamp == s.stamp then Some(ks[0])
    else FirstExact(l, ks[1..], s)
  }

  /** A single visible candidate is taken unseen; among several the first with equal payload and stamp. */
  function Search(l: seq<Slot>, s: Slot): (r: Option<nat>)
    ensures r.Some? ==> r.value < |l| && Live(l[r.value]) && l[r.value].nbr == s.nbr
  {
    var ks := Candidates(l, s.nbr, |l|);
    if |ks| == 0 then None else if |ks| == 1 then Some(ks[0]) else FirstExact(l, ks, s)
  }

  lemma {:induction false} FirstExactIs(l: seq<Slot>, ks: seq<nat>, s: Slot, m: nat)
    requires forall i | 0 <= i < |ks| :: ks[i] < |l|
    requires m in ks && l[m].data == s.data && l[m].stamp == s.stamp
    requires forall i | 0 <= i < |ks| && l[ks[i]].data == s.data && l[ks[i]].stamp == s.stamp :: ks[i] == m
    ensures FirstExact(l, ks, s) == Some(m)
  {
    if ks[0] != m { FirstExactIs(l, ks[1..], s, m); }
  }

  /** A slot without a visible double is found. */
  lemma SearchFinds(l: seq<Slot>, m: nat)
    requires m < |l| && Live(l[m])
    requires forall k | 0 <= k < |l| && l[k] == l[m] :: k == m
    ensures Search(l, l[m]) == Some(m)
  {
    var ks := Candidates(l, l[m].nbr, |l|);
    assert m in ks;
    if |ks| != 1 { FirstExactIs(l, ks, l[m], m); }
  }

  lemma {:induction false} FirstExactFinds(l: seq<Slot>, ks: seq<nat>, s: Slot, m: nat)
    requires forall i | 0 <= i < |ks| :: ks[i] < |l|
    requires m in ks && l[m].data == s.data && l[m].stamp == s.stamp
    ensures var r := FirstExact(l, ks, s); r.Some? && l[r.value].data == s.data && l[r.value].stamp == s.stamp
  {
    if !(l[ks[0]].data == s.data && l[ks[0]].stamp == s.stamp) { FirstExactFinds(l, ks[1..], s, m); }
  }

  /** What is in the list, visible, is found: the slot itself or one that looks the same. */
  lemma SearchExact(l: seq<Slot>, m: nat)
    requires m < |l| && Live(l[m])
    ensures var r := Search(l, l[m]); r.Some? && l[r.value] == l[m]
  {
    var ks := Candidates(l, l[m].nbr, |l|);
    assert m in ks;
    if |ks| != 1 { FirstExactFinds(l, ks, l[m], m); }
  }

  predicate To(l: seq<Slot>, nbr: nat, i: nat) { i < |l| && l[i].stamp.Some? && l[i].nbr == nbr }

  /** The only visible slot to that neighbour, whatever it carries. */
  predicate OnlyTo(l: seq<Slot>, nbr: nat, i: nat) {
    To(l, nbr, i) && forall j: nat | j < |l| && j != i :: !To(l, nbr, j)
  }

  /** The first of several that carries the same. */
  predicate FirstSame(l: seq<Slot>, s: Slot, i: nat) {
    && To(l, s.nbr, i) && l[i] == s && (forall j: nat | j < i :: l[j] != s)
    && exists j: nat :: j < |l| && j != i && To(l, s.nbr, j)
  }

  lemma {:induction false} FirstExactWhere(l: seq<Slot>, ks: seq<nat>, s: Slot, i: nat)
    requires forall k | 0 <= k < |ks| :: ks[k] < |l| && To(l, s.nbr, ks[k])
    requires forall j, k | 0 <= j < k < |ks| :: ks[j] < ks[k]
    ensures FirstExact(l, ks, s) == Some(i) <==> i in ks && l[i] == s && forall k | k in ks && k < i :: l[k] != s
    decreases |ks|
  {
    if ks != [] {
      FirstExactWhere(l, ks[1..], s, i);
      assert ks == [ks[0]] + ks[1..];
      assert l[ks[0]] == s <==> l[ks[0]].data == s.data && l[ks[0]].stamp == s.stamp;
    }
  }

  /** What the search finds: a single slot to the neighbour as it is, of several the first that is the same. */
  lemma SearchIs(l: seq<Slot>, s: Slot, i: nat)
    requires s.stamp.Some?
    ensures Search(l, s) == Some(i) <==> OnlyTo(l, s.nbr, i) || FirstSame(l, s, i)
  {
    var ks := Candidates(l, s.nbr, |l|);
    forall k: nat ensures k in ks <==> To(l, s.nbr, k) { }
    if |ks| == 0 {
      assert !To(l, s.nbr, i);
    } else if |ks| == 1 {
      assert forall k | k in ks :: k == ks[0];
    } else {
      FirstExactWhere(l, ks, s, i);
      assert To(l, s.nbr, ks[0]) && To(l, s.nbr, ks[1]) && ks[0] != ks[1];
    }
  }

  // ------------------------------------------------------------------------------------
  // Consistent tables
  // ------------------------------------------------------------------------------------

  /** Slot j of u's outgoing list and slot m of w's incoming list are the two sides of one edge. */
  predicate Mates(t: Table, u: nat, j: nat, w: nat, m: nat) {
    && j < |List(t.out, u)| && m < |List(t.inc, w)|
    && Live(List(t.out, u)[j]) && List(t.out, u)[j].nbr == w
    && List(t.inc, w)[m] == List(t.out, u)[j].(nbr := u)
  }

  predicate NoDoubles(l: seq<Slot>) {
    forall i, j | 0 <= i < j < |l| && Live(l[i]) && Live(l[j]) :: l[i] != l[j]
  }

  ghost predicate HasMate(t: Table, u: nat, j: nat)
    requires j < |List(t.out, u)|
  {
    exists m :: Mates(t, u, j, List(t.out, u)[j].nbr, m)
  }

  ghost predicate HasSource(t: Table, w: nat, m: nat)
    requires m < |List(t.inc, w)|
  {
    exists j :: Mates(t, List(t.inc, w)[m].nbr, j, w, m)
  }

  function Tally(l: seq<Slot>, x: Slot): (n: nat) { multiset(l)[x] }

  /** As many slots look like x on u's side as look like its other side at x's neighbour. */
  predicate Balanced(t: Table, u: nat, x: Slot) {
    Tally(List(t.out, u), x) == Tally(List(t.inc, x.nbr), x.(nbr := u))
  }

  /** The two lists agree on the visible edges, parallel ones that look the same included. */
  ghost predicate TableOk(t: Table) { forall u: nat, x: Slot | Live(x) :: Balanced(t, u, x) }

  /** No two visible edges leave v that look the same. */
  predicate NoTwins(t: Table, v: nat) { NoDoubles(List(t.out, v)) }

  lemma TallyTwo(l: seq<Slot>, i: nat, j: nat)
    requires i < j < |l| && l[i] == l[j]
    ensures Tally(l, l[i]) >= 2
  {
    assert l == l[..j] + l[j..] && l[..j][i] == l[i] && l[j..][0] == l[j];
    assert multiset(l) == multiset(l[..j]) + multiset(l[j..]);
  }

  lemma {:induction false} TwoPlaces(l: seq<Slot>, x: Slot) returns (i: nat, j: nat)
    requires Tally(l, x) >= 2
    ensures i < j < |l| && l[i] == x && l[j] == x
  {
    var n := |l| - 1;
    var p := l[..n];
    assert l == p + [l[n]];
    if l[n] == x {
      assert multiset(p)[x] >= 1;
      assert x in p;
      i :| 0 <= i < n && p[i] == x;
      j := n;
    } else {
      i, j := TwoPlaces(p, x);
    }
  }

  lemma MateExists(t: Table, u: nat, j: nat)
    requires TableOk(t) && j < |List(t.out, u)| && Live(List(t.out, u)[j])
    ensures HasMate(t, u, j)
  {
    var x := List(t.out, u)[j];
    assert Balanced(t, u, x);
    assert x in multiset(List(t.out, u));
    assert x.(nbr := u) in List(t.inc, x.nbr);
    var m :| 0 <= m < |List(t.inc, x.nbr)| && List(t.inc, x.nbr)[m] == x.(nbr := u);
    assert Mates(t, u, j, x.nbr, m);
  }

  lemma SourceExists(t: Table, w: nat, m: nat)
    requires TableOk(t) && m < |List(t.inc, w)| && Live(List(t.inc, w)[m])
    ensures HasSource(t, w, m)
  {
    var y := List(t.inc, w)[m];
    var x := y.(nbr := w);
    assert Balanced(t, y.nbr, x);
    assert y in multiset(List(t.inc, w));
    assert x in List(t.out, y.nbr);
    var j :| 0 <= j < |List(t.out, y.nbr)| && List(t.out, y.nbr)[j] == x;
    assert Mates(t, y.nbr, j, w, m);
  }

  lemma FlipMates(t: Table, u: nat, j: nat, w: nat, m: nat)
    ensures Mates(t, u, j, w, m) == Mates(Flip(t), w, m, u, j)
  {
  }

  lemma FlipOk(t: Table)
    requires TableOk(t)
    ensures TableOk(Flip(t))
  {
    forall w: nat, y: Slot | Live(y) ensures Balanced(Flip(t), w, y) { assert Balanced(t, y.nbr, y.(nbr := w)); }
  }

  /** Without twins each edge of u has one other side. */
  lemma MateUnique(t: Table, u: nat, j: nat, w: nat, m: nat, m': nat)
    requires TableOk(t) && NoTwins(t, u) && Mates(t, u, j, w, m) && Mates(t, u, j, w, m')
    ensures m == m'
  {
    var x := List(t.out, u)[j];
    assert Balanced(t, u, x);
    if m != m' {
      TallyTwo(List(t.inc, w), if m < m' then m else m', if m < m' then m' else m);
      var a, b := TwoPlaces(List(t.out, u), x);
      assert false;
    }
  }

  lemma SourceUnique(t: Table, u: nat, j: nat, j': nat, w: nat, m: nat)
    requires NoTwins(t, u) && Mates(t, u, j, w, m) && Mates(t, u, j', w, m)
    ensures j == j'
  {
  }

  // ------------------------------------------------------------------------------------
  // Masked tables
  // ------------------------------------------------------------------------------------

  /** `y` is `x`, payload for payload, with dead slots appended; which slots of `x` live is left open. */
  predicate Shape(x: seq<Slot>, y: seq<Slot>) {
    && |x| <= |y|
    && (forall k | 0 <= k < |x| :: y[k].nbr == x[k].nbr && y[k].data == x[k].data)
    && (forall k | |x| <= k < |y| :: !Live(y[k]))
  }

  ghost predicate TableShape(t: Table, y: Table) {
    && (forall u :: Shape(List(t.out, u), List(y.out, u)))
    && (forall w :: Shape(List(t.inc, w), List(y.inc, w)))
  }

  /** The incoming slot belongs to an edge of v whose outgoing offset is in the range. */
  ghost predicate Masks(t: Table, v: nat, lo: nat, hi: nat, w: nat, m: nat) {
    exists j :: lo <= j < hi && Mates(t, v, j, w, m)
  }

  /** `y` is `t` without the edges of v whose outgoing offset is in the range. */
  ghost predicate Masked(t: Table, y: Table, v: nat, lo: nat, hi: nat) {
    && TableShape(t, y)
    && (forall u: nat, j: nat | j < |List(t.out, u)| ::
          Live(List(y.out, u)[j]) <==> Live(List(t.out, u)[j]) && !(u == v && lo <= j < hi))
    && (forall w: nat, m: nat | m < |List(t.inc, w)| ::
          Live(List(y.inc, w)[m]) <==> Live(List(t.inc, w)[m]) && !Masks(t, v, lo, hi, w, m))
  }

  /** Nothing was appended and what lives is untouched. */
  predicate Untouched(x: seq<Slot>, y: seq<Slot>) {
    |x| == |y| && forall k | 0 <= k < |x| && Live(y[k]) :: y[k] == x[k]
  }

  ghost predicate TableUntouched(t: Table, y: Table) {
    && (forall u :: Untouched(List(t.out, u), List(y.out, u)))
    && (forall w :: Untouched(List(t.inc, w), List(y.inc, w)))
  }

  // ------------------------------------------------------------------------------------
  // Removing a vertex from one table
  // ------------------------------------------------------------------------------------

  /** The loop over v's visible outgoing slots, from offset k on. */
  function DropOut(t: Table, v: nat, k: nat): (r: Option<Table>)
    decreases |List(t.out, v)| - k
  {
    if k >= |List(t.out, v)| then Some(t)
    else
      var s := List(t.out, v)[k];
      if !Live(s) then DropOut(t, v, k + 1)
      else match Search(List(t.inc, s.nbr), s.(nbr := v))
        case None => None
        case Some(m) =>
          var t' := DeleteEdge(t, Cap(v, s.nbr, k, m)).value;
          assert |List(t'.out, v)| == |List(t.out, v)|;
          DropOut(t', v, k + 1)
  }

  /** What a removal records of v's visible outgoing slots, from offset k on. */
  function CaptureOut(t: Table, v: nat, k: nat): (r: seq<Option<Cap>>)
    decreases |List(t.out, v)| - k
  {
    if k >= |List(t.out, v)| then []
    else
      var s := List(t.out, v)[k];
      if !Live(s) then CaptureOut(t, v, k + 1)
      else
        var m := Search(List(t.inc, s.nbr), s.(nbr := v));
        [if m.Some? then Some(Cap(v, s.nbr, k, m.value)) else None] + CaptureOut(t, v, k + 1)
  }

  function ReviveAll(t: Table, caps: seq<Option<Cap>>, ts: nat): (r: Option<Table>)
    decreases |caps|
  {
    if caps == [] then Some(t)
    else if caps[0].None? then None
    else match RevertDeleteEdge(t, caps[0].value, ts)
      case None => None
      case Some(t') => ReviveAll(t', caps[1..], ts)
  }

  /** An incoming slot is masked exactly if its edge is. */
  lemma MasksIff(t: Table, v: nat, lo: nat, hi: nat, k: nat, w: nat, m: nat)
    requires NoTwins(t, v) && Mates(t, v, k, w, m)
    ensures Masks(t, v, lo, hi, w, m) <==> lo <= k < hi
  {
    forall j: nat | Mates(t, v, j, w, m) ensures j == k { SourceUnique(t, v, j, k, w, m); }
  }

  /** Another incoming slot is none of edge k's. */
  lemma MasksOther(t: Table, v: nat, k: nat, w: nat, m: nat, x: nat, n: nat)
    requires TableOk(t) && NoTwins(t, v) && Mates(t, v, k, w, m) && !(x == w && n == m)
    ensures !Mates(t, v, k, x, n)
  {
    if x == w && Mates(t, v, k, x, n) { MateUnique(t, v, k, w, m, n); }
  }

  lemma KillSlot(x: seq<Slot>, y: seq<Slot>, k: nat)
    requires Shape(x, y) && Untouched(x, y) && k < |x|
    ensures var z := y[k := y[k].(stamp := None)]; Shape(x, z) && Untouched(x, z)
  {
  }

  lemma KillKeepsShape(t: Table, y: Table, e: Cap)
    requires TableShape(t, y) && TableUntouched(t, y)
    requires e.oe < |List(t.out, e.src)| && e.ie < |List(t.inc, e.dst)|
    ensures DeleteEdge(y, e).Some?
    ensures TableShape(t, DeleteEdge(y, e).value) && TableUntouched(t, DeleteEdge(y, e).value)
  {
    assert Shape(List(t.inc, e.dst), List(y.inc, e.dst)) && Shape(List(t.out, e.src), List(y.out, e.src));
    var d := DeleteEdge(y, e).value;
    forall u ensures Untouched(List(t.out, u), List(d.out, u)) && Shape(List(t.out, u), List(d.out, u)) {
      assert Untouched(List(t.out, u), List(y.out, u)) && Shape(List(t.out, u), List(y.out, u));
      if u == e.src { KillSlot(List(t.out, u), List(y.out, u), e.oe); }
    }
    forall u ensures Untouched(List(t.inc, u), List(d.inc, u)) && Shape(List(t.inc, u), List(d.inc, u)) {
      assert Untouched(List(t.inc, u), List(y.inc, u)) && Shape(List(t.inc, u), List(y.inc, u));
      if u == e.dst { KillSlot(List(t.inc, u), List(y.inc, u), e.ie); }
    }
  }

  /** Deleting the two sides of an edge keeps the lists in agreement. */
  lemma DeleteKeepsOk(t: Table, e: Cap)
    requires TableOk(t) && e.oe < |List(t.out, e.src)| && e.ie < |List(t.inc, e.dst)|
    requires Mates(t, e.src, e.oe, e.dst, e.ie)
    ensures DeleteEdge(t, e).Some? && TableOk(DeleteEdge(t, e).value)
  {
    forall u: nat, x: Slot | Live(x) ensures Balanced(DeleteEdge(t, e).value, u, x) {
      assert Balanced(t, u, x);
      DeleteKeepsBalance(t, e, u, x);
    }
  }

  lemma DeleteKeepsBalance(t: Table, e: Cap, u: nat, x: Slot)
    requires Mates(t, e.src, e.oe, e.dst, e.ie) && Live(x) && Balanced(t, u, x)
    ensures DeleteEdge(t, e).Some? && Balanced(DeleteEdge(t, e).value, u, x)
  {
    KillTally(List(t.out, e.src), e.oe, x);
    KillTally(List(t.inc, e.dst), e.ie, x.(nbr := u));
  }

  lemma KillTally(l: seq<Slot>, k: nat, x: Slot)
    requires k < |l| && Live(x)
    ensures Tally(l[k := l[k].(stamp := None)], x) == Tally(l, x) - (if l[k] == x then 1 else 0)
  {
    assert multiset(l[k := l[k].(stamp := None)]) == multiset(l) - multiset{l[k]} + multiset{l[k].(stamp := None)};
  }

  /** The loop has gone over v's outgoing slots up to k: those are dead, others' edges are untouched. */
  ghost predicate Dropping(t: Table, y: Table, v: nat, k: nat) {
    && TableShape(t, y) && TableUntouched(t, y) && TableOk(y)
    && (forall u: nat, j: nat | j < |List(t.out, u)| ::
          Live(List(y.out, u)[j]) <==> Live(List(t.out, u)[j]) && !(u == v && j < k))
    && (forall w: nat, m: nat | m < |List(t.inc, w)| && List(t.inc, w)[m].nbr != v ::
          Live(List(y.inc, w)[m]) <==> Live(List(t.inc, w)[m]))
  }

  lemma DropKills(t: Table, y: Table, v: nat, k: nat, m: nat)
    requires Dropping(t, y, v, k) && k < |List(t.out, v)| && Mates(y, v, k, List(t.out, v)[k].nbr, m)
    ensures var d := DeleteEdge(y, Cap(v, List(t.out, v)[k].nbr, k, m)); d.Some? && Dropping(t, d.value, v, k + 1)
  {
    var e := Cap(v, List(t.out, v)[k].nbr, k, m);
    assert Untouched(List(t.out, v), List(y.out, v)) && Untouched(List(t.inc, e.dst), List(y.inc, e.dst));
    KillKeepsShape(t, y, e);
    DeleteKeepsOk(y, e);
  }

  /** One turn of the removal loop. */
  lemma DropStep(t: Table, y: Table, v: nat, k: nat) returns (y': Table)
    requires Dropping(t, y, v, k) && k < |List(t.out, v)|
    ensures DropOut(y, v, k) == DropOut(y', v, k + 1) && Dropping(t, y', v, k + 1)
  {
    assert Untouched(List(t.out, v), List(y.out, v));
    var s := List(y.out, v)[k];
    if Live(s) {
      MateExists(y, v, k);
      var m0 :| Mates(y, v, k, s.nbr, m0);
      SearchExact(List(y.inc, s.nbr), m0);
      var m := Search(List(y.inc, s.nbr), s.(nbr := v)).value;
      DropKills(t, y, v, k, m);
      y' := DeleteEdge(y, Cap(v, s.nbr, k, m)).value;
    } else {
      y' := y;
    }
  }

  lemma {:induction false} DropOutDrops(t: Table, y: Table, v: nat, k: nat)
    requires Dropping(t, y, v, k) && k <= |List(t.out, v)|
    ensures var d := DropOut(y, v, k); d.Some? && Dropping(t, d.value, v, |List(t.out, v)|)
    decreases |List(t.out, v)| - k
  {
    if k < |List(t.out, v)| {
      var y' := DropStep(t, y, v, k);
      DropOutDrops(t, y', v, k + 1);
    } else {
      assert Untouched(List(t.out, v), List(y.out, v));
    }
  }

  // ------------------------------------------------------------------------------------
  // Edges by their ends
  // ------------------------------------------------------------------------------------

  /** The edges from v, into v, at v, or none. */
  datatype Ends = From(v: nat) | Into(v: nat) | At(v: nat) | Nowhere

  predicate Hits(e: Ends, u: nat, w: nat) {
    match e
    case From(v) => u == v
    case Into(v) => w == v
    case At(v) => u == v || w == v
    case Nowhere => false
  }

  /** `y` is `t` without the edges that `e` hits. */
  ghost predicate Without(t: Table, y: Table, e: Ends) {
    && TableShape(t, y)
    && (forall u: nat, j: nat | j < |List(t.out, u)| ::
          Live(List(y.out, u)[j]) <==> Live(List(t.out, u)[j]) && !Hits(e, u, List(t.out, u)[j].nbr))
    && (forall w: nat, m: nat | m < |List(t.inc, w)| ::
          Live(List(y.inc, w)[m]) <==> Live(List(t.inc, w)[m]) && !Hits(e, List(t.inc, w)[m].nbr, w))
  }

  /** The same visible edges, slot for slot. */
  ghost predicate SameTable(t: Table, y: Table) { Without(t, y, Nowhere) }

  function FlipEnds(e: Ends): (f: Ends) {
    match e
    case From(v) => Into(v)
    case Into(v) => From(v)
    case At(_) => e
    case Nowhere => e
  }

  lemma FlipWithout(t: Table, y: Table, e: Ends)
    requires Without(t, y, e)
    ensures Without(Flip(t), Flip(y), FlipEnds(e))
  {
  }

  lemma AllMasked(t: Table, v: nat, w: nat, m: nat)
    requires TableOk(t) && m < |List(t.inc, w)| && Live(List(t.inc, w)[m])
    ensures Masks(t, v, 0, |List(t.out, v)|, w, m) <==> List(t.inc, w)[m].nbr == v
  {
    SourceExists(t, w, m);
  }

  /** Masking all of v's offsets removes the edges from v. */
  lemma MaskedIsWithout(t: Table, y: Table, v: nat)
    requires TableOk(t)
    ensures Masked(t, y, v, 0, |List(t.out, v)|) <==> Without(t, y, From(v))
  {
    forall w: nat, m: nat | m < |List(t.inc, w)| && Live(List(t.inc, w)[m])
      ensures Masks(t, v, 0, |List(t.out, v)|, w, m) <==> Hits(From(v), List(t.inc, w)[m].nbr, w)
    {
      AllMasked(t, v, w, m);
    }
  }

  lemma NothingMasked(t: Table, y: Table, v: nat, k: nat)
    ensures Masked(t, y, v, k, k) <==> SameTable(t, y)
  {
    forall w: nat, m: nat ensures !Masks(t, v, k, k, w, m) { }
  }

  /** No incoming slot is left of a vertex whose outgoing slots are all dead. */
  lemma AllDropped(t: Table, y: Table, v: nat, w: nat, m: nat)
    requires Dropping(t, y, v, |List(t.out, v)|) && m < |List(t.inc, w)| && List(t.inc, w)[m].nbr == v
    ensures m < |List(y.inc, w)| && !Live(List(y.inc, w)[m])
  {
    assert Untouched(List(t.inc, w), List(y.inc, w)) && Untouched(List(t.out, v), List(y.out, v));
    assert Shape(List(t.inc, w), List(y.inc, w));
    if Live(List(y.inc, w)[m]) { SourceExists(y, w, m); }
  }

  /** The removal loop takes away exactly the edges from v, and leaves the lists in agreement. */
  lemma DropOutWithout(t: Table, v: nat)
    requires TableOk(t)
    ensures var d := DropOut(t, v, 0);
      d.Some? && Without(t, d.value, From(v)) && TableUntouched(t, d.value) && TableOk(d.value)
  {
    assert Without(t, t, Nowhere);
    DropOutDrops(t, t, v, 0);
    var y := DropOut(t, v, 0).value;
    forall w: nat, m: nat | m < |List(t.inc, w)|
      ensures Live(List(y.inc, w)[m]) <==> Live(List(t.inc, w)[m]) && List(t.inc, w)[m].nbr != v
    {
      assert Shape(List(t.inc, w), List(y.inc, w));
      if List(t.inc, w)[m].nbr == v { AllDropped(t, y, v, w, m); }
    }
  }

  /** The loop over v's visible incoming slots. */
  function DropIn(t: Table, v: nat): (r: Option<Table>) {
    match DropOut(Flip(t), v, 0)
    case None => None
    case Some(f) => Some(Flip(f))
  }

  lemma DropInWithout(t: Table, v: nat)
    requires TableOk(t)
    ensures var d := DropIn(t, v);
      d.Some? && Without(t, d.value, Into(v)) && TableUntouched(t, d.value) && TableOk(d.value)
  {
    FlipOk(t);
    DropOutWithout(Flip(t), v);
    FlipWithout(Flip(t), DropOut(Flip(t), v, 0).value, From(v));
    FlipOk(DropOut(Flip(t), v, 0).value);
  }

  /** Both loops on one table, as for a triplet from a label to itself. */
  lemma DropBothWithout(t: Table, v: nat)
    requires TableOk(t)
    ensures DropOut(t, v, 0).Some?
    ensures var d := DropIn(DropOut(t, v, 0).value, v);
      d.Some? && Without(t, d.value, At(v)) && TableUntouched(t, d.value) && TableOk(d.value)
  {
    DropOutWithout(t, v);
    var y := DropOut(t, v, 0).value;
    DropInWithout(y, v);
    WithoutTwice(t, y, DropIn(y, v).value, v);
  }

  lemma WithoutTwice(t: Table, y: Table, z: Table, v: nat)
    requires Without(t, y, From(v)) && TableUntouched(t, y) && Without(y, z, Into(v)) && TableUntouched(y, z)
    ensures Without(t, z, At(v)) && TableUntouched(t, z)
  {
    forall u ensures Untouched(List(t.out, u), List(z.out, u)) && Shape(List(t.out, u), List(z.out, u)) {
      assert Untouched(List(t.out, u), List(y.out, u)) && Untouched(List(y.out, u), List(z.out, u));
      assert Shape(List(t.out, u), List(y.out, u)) && Shape(List(y.out, u), List(z.out, u));
    }
    forall u ensures Untouched(List(t.inc, u), List(z.inc, u)) && Shape(List(t.inc, u), List(z.inc, u)) {
      assert Untouched(List(t.inc, u), List(y.inc, u)) && Untouched(List(y.inc, u), List(z.inc, u));
      assert Shape(List(t.inc, u), List(y.inc, u)) && Shape(List(y.inc, u), List(z.inc, u));
    }
  }

  // ------------------------------------------------------------------------------------
  // Undoing a removal
  // ------------------------------------------------------------------------------------

  lemma ReviveSlot(x: seq<Slot>, y: seq<Slot>, k: nat, ts: nat)
    requires Shape(x, y) && k < |x|
    ensures Shape(x, y[k := y[k].(stamp := Some(ts))])
  {
  }

  lemma ReviveKeepsShape(t: Table, y: Table, e: Cap, ts: nat)
    requires TableShape(t, y) && RevertDeleteEdge(y, e, ts).Some?
    requires e.oe < |List(t.out, e.src)| && e.ie < |List(t.inc, e.dst)|
    ensures TableShape(t, RevertDeleteEdge(y, e, ts).value)
  {
    var d := RevertDeleteEdge(y, e, ts).value;
    forall u ensures Shape(List(t.out, u), List(d.out, u)) {
      assert Shape(List(t.out, u), List(y.out, u));
      if u == e.src { ReviveSlot(List(t.out, u), List(y.out, u), e.oe, ts); }
    }
    forall u ensures Shape(List(t.inc, u), List(d.inc, u)) {
      assert Shape(List(t.inc, u), List(y.inc, u));
      if u == e.dst { ReviveSlot(List(t.inc, u), List(y.inc, u), e.ie, ts); }
    }
  }

  lemma MasksFrom(t: Table, v: nat, k: nat, hi: nat, w: nat, m: nat, x: nat, n: nat)
    requires TableOk(t) && NoTwins(t, v) && Mates(t, v, k, w, m) && k < hi
    ensures Masks(t, v, k, hi, x, n) <==> Masks(t, v, k + 1, hi, x, n) || (x == w && n == m)
  {
    if !(x == w && n == m) { MasksOther(t, v, k, w, m, x, n); }
  }

  /** Reviving edge k unmasks it. */
  lemma UnmaskOne(t: Table, y: Table, v: nat, k: nat, hi: nat, m: nat, ts: nat)
    requires TableOk(t) && NoTwins(t, v) && k < hi && Masked(t, y, v, k, hi)
    requires k < |List(t.out, v)| && Mates(t, v, k, List(t.out, v)[k].nbr, m)
    ensures var d := RevertDeleteEdge(y, Cap(v, List(t.out, v)[k].nbr, k, m), ts);
      d.Some? && Masked(t, d.value, v, k + 1, hi)
  {
    var w := List(t.out, v)[k].nbr;
    var e := Cap(v, w, k, m);
    assert Shape(List(t.inc, w), List(y.inc, w)) && Shape(List(t.out, v), List(y.out, v));
    MasksIff(t, v, k, hi, k, w, m);
    MasksIff(t, v, k + 1, hi, k, w, m);
    assert RevertDeleteEdge(y, e, ts).Some?;
    ReviveKeepsShape(t, y, e, ts);
    UnmaskInc(t, y, v, k, hi, m, ts);
  }

  lemma UnmaskInc(t: Table, y: Table, v: nat, k: nat, hi: nat, m: nat, ts: nat)
    requires TableOk(t) && NoTwins(t, v) && k < hi && Masked(t, y, v, k, hi)
    requires k < |List(t.out, v)| && Mates(t, v, k, List(t.out, v)[k].nbr, m)
    requires RevertDeleteEdge(y, Cap(v, List(t.out, v)[k].nbr, k, m), ts).Some?
    ensures var d := RevertDeleteEdge(y, Cap(v, List(t.out, v)[k].nbr, k, m), ts).value;
      forall x: nat, n: nat | n < |List(t.inc, x)| && n < |List(d.inc, x)| ::
        Live(List(d.inc, x)[n]) <==> Live(List(t.inc, x)[n]) && !Masks(t, v, k + 1, hi, x, n)
  {
    var w := List(t.out, v)[k].nbr;
    var d := RevertDeleteEdge(y, Cap(v, w, k, m), ts).value;
    forall x: nat, n: nat | n < |List(t.inc, x)| && n < |List(d.inc, x)|
      ensures Live(List(d.inc, x)[n]) <==> Live(List(t.inc, x)[n]) && !Masks(t, v, k + 1, hi, x, n)
    {
      MasksFrom(t, v, k, hi, w, m, x, n);
      MasksIff(t, v, k + 1, hi, k, w, m);
      assert Shape(List(t.inc, x), List(y.inc, x));
      assert Live(List(y.inc, x)[n]) <==> Live(List(t.inc, x)[n]) && !Masks(t, v, k, hi, x, n);
    }
  }

  lemma ReviveStepLive(t: Table, y: Table, v: nat, k: nat, ts: nat) returns (y': Table)
    requires TableOk(t) && NoTwins(t, v) && k < |List(t.out, v)| && Masked(t, y, v, k, |List(t.out, v)|)
    requires Live(List(t.out, v)[k])
    ensures ReviveAll(y, CaptureOut(t, v, k), ts) == ReviveAll(y', CaptureOut(t, v, k + 1), ts)
    ensures Masked(t, y', v, k + 1, |List(t.out, v)|)
  {
    var m := CapturedMate(t, v, k);
    UnmaskOne(t, y, v, k, |List(t.out, v)|, m, ts);
    y' := RevertDeleteEdge(y, Cap(v, List(t.out, v)[k].nbr, k, m), ts).value;
    ReviveFirst(y, Cap(v, List(t.out, v)[k].nbr, k, m), CaptureOut(t, v, k + 1), ts);
  }

  lemma ReviveFirst(y: Table, e: Cap, caps: seq<Option<Cap>>, ts: nat)
    requires RevertDeleteEdge(y, e, ts).Some?
    ensures ReviveAll(y, [Some(e)] + caps, ts) == ReviveAll(RevertDeleteEdge(y, e, ts).value, caps, ts)
  {
    assert ([Some(e)] + caps)[1..] == caps;
  }

  lemma ReviveStepDead(t: Table, y: Table, v: nat, k: nat)
    requires k < |List(t.out, v)| && Masked(t, y, v, k, |List(t.out, v)|) && !Live(List(t.out, v)[k])
    ensures CaptureOut(t, v, k) == CaptureOut(t, v, k + 1)
    ensures Masked(t, y, v, k + 1, |List(t.out, v)|)
  {
    var hi := |List(t.out, v)|;
    forall w: nat, m: nat ensures Masks(t, v, k, hi, w, m) <==> Masks(t, v, k + 1, hi, w, m) { }
  }

  /** Replaying the captured edges from offset k on unmasks everything from there. */
  lemma {:induction false} ReviveUnmasks(t: Table, y: Table, v: nat, k: nat, ts: nat)
    requires TableOk(t) && NoTwins(t, v) && k <= |List(t.out, v)| && Masked(t, y, v, k, |List(t.out, v)|)
    ensures var d := ReviveAll(y, CaptureOut(t, v, k), ts); d.Some? && SameTable(t, d.value)
    decreases |List(t.out, v)| - k
  {
    if k == |List(t.out, v)| {
      NothingMasked(t, y, v, k);
    } else if Live(List(t.out, v)[k]) {
      var y' := ReviveStepLive(t, y, v, k, ts);
      ReviveUnmasks(t, y', v, k + 1, ts);
    } else {
      ReviveStepDead(t, y, v, k);
      ReviveUnmasks(t, y, v, k + 1, ts);
    }
  }

  /** The capture of a visible slot names its mate. */
  lemma CapturedMate(t: Table, v: nat, k: nat) returns (m: nat)
    requires TableOk(t) && k < |List(t.out, v)| && Live(List(t.out, v)[k])
    ensures Mates(t, v, k, List(t.out, v)[k].nbr, m)
    ensures CaptureOut(t, v, k) == [Some(Cap(v, List(t.out, v)[k].nbr, k, m))] + CaptureOut(t, v, k + 1)
  {
    MateExists(t, v, k);
    var w := List(t.out, v)[k].nbr;
    var m0 :| Mates(t, v, k, w, m0);
    SearchExact(List(t.inc, w), m0);
    m := Search(List(t.inc, w), List(t.out, v)[k].(nbr := v)).value;
  }

  // ------------------------------------------------------------------------------------
  // Exactly when the undo restores
  // ------------------------------------------------------------------------------------

  /** On the visible edges of t the two descriptions agree. */
  ghost predicate Agree(t: Table, e: Ends, f: Ends) {
    forall u: nat, j: nat | j < |List(t.out, u)| && Live(List(t.out, u)[j]) ::
      Hits(e, u, List(t.out, u)[j].nbr) <==> Hits(f, u, List(t.out, u)[j].nbr)
  }

  lemma AgreeWithout(t: Table, y: Table, e: Ends, f: Ends)
    requires TableOk(t) && Without(t, y, e) && Agree(t, e, f)
    ensures Without(t, y, f)
  {
    forall w: nat, m: nat | m < |List(t.inc, w)| && Live(List(t.inc, w)[m])
      ensures Hits(e, List(t.inc, w)[m].nbr, w) <==> Hits(f, List(t.inc, w)[m].nbr, w)
    {
      SourceExists(t, w, m);
      var j :| Mates(t, List(t.inc, w)[m].nbr, j, w, m);
    }
  }

  /** A captured slot that is still visible makes the undo throw. */
  lemma {:induction false} ReviveFails(t: Table, y: Table, v: nat, k: nat, j: nat, ts: nat)
    requires k <= j < |List(t.out, v)| <= |List(y.out, v)|
    requires Live(List(t.out, v)[j]) && Live(List(y.out, v)[j])
    ensures ReviveAll(y, CaptureOut(t, v, k), ts).None?
    decreases j - k
  {
    var caps := CaptureOut(t, v, k);
    if !Live(List(t.out, v)[k]) {
      ReviveFails(t, y, v, k + 1, j, ts);
    } else if caps[0].Some? && RevertDeleteEdge(y, caps[0].value, ts).Some? {
      assert caps[1..] == CaptureOut(t, v, k + 1);
      ReviveFails(t, RevertDeleteEdge(y, caps[0].value, ts).value, v, k + 1, j, ts);
    }
  }

  /** The undo touches outgoing slots of v only. */
  lemma {:induction false} ReviveElsewhere(t: Table, y: Table, v: nat, k: nat, u: nat, ts: nat)
    requires k <= |List(t.out, v)| && u != v && ReviveAll(y, CaptureOut(t, v, k), ts).Some?
    ensures List(ReviveAll(y, CaptureOut(t, v, k), ts).value.out, u) == List(y.out, u)
    decreases |List(t.out, v)| - k
  {
    if k < |List(t.out, v)| {
      var caps := CaptureOut(t, v, k);
      if Live(List(t.out, v)[k]) {
        assert caps[1..] == CaptureOut(t, v, k + 1);
        ReviveElsewhere(t, RevertDeleteEdge(y, caps[0].value, ts).value, v, k + 1, u, ts);
      } else {
        ReviveElsewhere(t, y, v, k + 1, u, ts);
      }
    }
  }

  ghost predicate Restored(t: Table, d: Option<Table>) { d.Some? && SameTable(t, d.value) }

  lemma WithoutShape(t: Table, y: Table, e: Ends, u: nat)
    requires Without(t, y, e)
    ensures Shape(List(t.out, u), List(y.out, u))
  {
  }

  /** A record whose incoming slot is visible already makes the undo throw. */
  lemma {:induction false} ReviveFailsAt(y: Table, caps: seq<Option<Cap>>, i: nat, ts: nat)
    requires i < |caps| && caps[i].Some? && caps[i].value.ie < |List(y.inc, caps[i].value.dst)|
    requires Live(List(y.inc, caps[i].value.dst)[caps[i].value.ie])
    ensures ReviveAll(y, caps, ts).None?
    decreases |caps|
  {
    if 0 < i && caps[0].Some? && RevertDeleteEdge(y, caps[0].value, ts).Some? {
      ReviveFailsAt(RevertDeleteEdge(y, caps[0].value, ts).value, caps[1..], i - 1, ts);
    }
  }

  /** Two records with the same incoming slot: the first one revives it, the second one throws. */
  lemma {:induction false} ReviveFailsTwice(y: Table, caps: seq<Option<Cap>>, i: nat, j: nat, ts: nat)
    requires i < j < |caps| && caps[i].Some? && caps[j].Some?
    requires caps[i].value.dst == caps[j].value.dst && caps[i].value.ie == caps[j].value.ie
    ensures ReviveAll(y, caps, ts).None?
    decreases |caps|
  {
    if caps[0].Some? && RevertDeleteEdge(y, caps[0].value, ts).Some? {
      var z := RevertDeleteEdge(y, caps[0].value, ts).value;
      if i == 0 {
        ReviveFailsAt(z, caps[1..], j - 1, ts);
      } else {
        ReviveFailsTwice(z, caps[1..], i - 1, j - 1, ts);
      }
    }
  }

  /** What the capture holds of the slot at offset j, and where. */
  lemma {:induction false} CaptureHas(t: Table, v: nat, k: nat, j: nat) returns (i: nat)
    requires TableOk(t) && k <= j < |List(t.out, v)| && Live(List(t.out, v)[j])
    ensures i < |CaptureOut(t, v, k)| && CaptureOut(t, v, k)[i].Some?
    ensures var s, c := List(t.out, v)[j], CaptureOut(t, v, k)[i].value;
      c.oe == j && c.dst == s.nbr && Some(c.ie) == Search(List(t.inc, s.nbr), s.(nbr := v))
    decreases j - k
  {
    if k == j {
      var m := CapturedMate(t, v, k);
      i := 0;
    } else {
      i := CaptureHas(t, v, k + 1, j);
      if Live(List(t.out, v)[k]) { i := i + 1; }
    }
  }

  /** Twins are recorded with the same incoming slot. */
  lemma TwinsFail(t: Table, y: Table, v: nat, ts: nat)
    requires TableOk(t) && !NoTwins(t, v)
    ensures ReviveAll(y, CaptureOut(t, v, 0), ts).None?
  {
    var l := List(t.out, v);
    var a: nat, b: nat :| a < b < |l| && Live(l[a]) && Live(l[b]) && l[a] == l[b];
    var i := CaptureHas(t, v, 0, a);
    var j := CaptureHas(t, v, 0, b);
    ReviveFailsTwice(y, CaptureOut(t, v, 0), if i < j then i else j, if i < j then j else i, ts);
  }

  /**
   * If the edges in e were removed, replaying the capture of v's outgoing slots restores the
   * table exactly if those are v's edges and no two of them look the same.
   */
  lemma RestoreOutExact(t: Table, y: Table, v: nat, e: Ends, ts: nat)
    requires TableOk(t) && Without(t, y, e)
    ensures Restored(t, ReviveAll(y, CaptureOut(t, v, 0), ts)) <==> Agree(t, e, From(v)) && NoTwins(t, v)
  {
    if !NoTwins(t, v) {
      TwinsFail(t, y, v, ts);
    } else if Agree(t, e, From(v)) {
      AgreeWithout(t, y, e, From(v));
      MaskedIsWithout(t, y, v);
      ReviveUnmasks(t, y, v, 0, ts);
    } else {
      DisagreeFails(t, y, v, e, ts);
    }
  }

  lemma DisagreeFails(t: Table, y: Table, v: nat, e: Ends, ts: nat)
    requires Without(t, y, e) && !Agree(t, e, From(v))
    ensures !Restored(t, ReviveAll(y, CaptureOut(t, v, 0), ts))
  {
    var u: nat, j: nat :| j < |List(t.out, u)| && Live(List(t.out, u)[j])
      && !(Hits(e, u, List(t.out, u)[j].nbr) <==> Hits(From(v), u, List(t.out, u)[j].nbr));
    WithoutShape(t, y, e, u);
    if u == v {
      ReviveFails(t, y, v, 0, j, ts);
    } else if ReviveAll(y, CaptureOut(t, v, 0), ts).Some? {
      ReviveElsewhere(t, y, v, 0, u, ts);
    }
  }

  function FlipCap(c: Option<Cap>): (f: Option<Cap>) {
    match c
    case None => None
    case Some(e) => Some(Cap(e.dst, e.src, e.ie, e.oe))
  }

  function FlipCaps(caps: seq<Option<Cap>>): (r: seq<Option<Cap>>)
    ensures |r| == |caps|
  {
    if caps == [] then [] else [FlipCap(caps[0])] + FlipCaps(caps[1..])
  }

  /** What a removal records of v's visible incoming slots. */
  function CaptureIn(t: Table, v: nat): (r: seq<Option<Cap>>) { FlipCaps(CaptureOut(Flip(t), v, 0)) }

  lemma {:induction false} FlipRevive(y: Table, caps: seq<Option<Cap>>, ts: nat)
    ensures ReviveAll(y, FlipCaps(caps), ts) ==
            match ReviveAll(Flip(y), caps, ts) case None => None case Some(d) => Some(Flip(d))
    decreases |caps|
  {
    if caps != [] && caps[0].Some? && RevertDeleteEdge(Flip(y), caps[0].value, ts).Some? {
      assert FlipCaps(caps)[1..] == FlipCaps(caps[1..]);
      FlipRevive(RevertDeleteEdge(y, FlipCap(caps[0]).value, ts).value, caps[1..], ts);
    }
  }

  lemma FlipAgree(t: Table, e: Ends, f: Ends)
    requires TableOk(t) && Agree(t, e, f)
    ensures Agree(Flip(t), FlipEnds(e), FlipEnds(f))
  {
    forall w: nat, m: nat | m < |List(t.inc, w)| && Live(List(t.inc, w)[m])
      ensures Hits(e, List(t.inc, w)[m].nbr, w) <==> Hits(f, List(t.inc, w)[m].nbr, w)
    {
      SourceExists(t, w, m);
      var j :| Mates(t, List(t.inc, w)[m].nbr, j, w, m);
    }
  }

  lemma RestoreInExact(t: Table, y: Table, v: nat, e: Ends, ts: nat)
    requires TableOk(t) && Without(t, y, e)
    ensures Restored(t, ReviveAll(y, CaptureIn(t, v), ts)) <==> Agree(t, e, Into(v)) && NoTwins(Flip(t), v)
  {
    FlipOk(t);
    FlipWithout(t, y, e);
    RestoreOutExact(Flip(t), Flip(y), v, FlipEnds(e), ts);
    FlipRevive(y, CaptureOut(Flip(t), v, 0), ts);
    var d := ReviveAll(Flip(y), CaptureOut(Flip(t), v, 0), ts);
    if Agree(t, e, Into(v)) && NoTwins(Flip(t), v) {
      FlipAgree(t, e, Into(v));
      FlipWithout(Flip(t), d.value, Nowhere);
    }
    if Restored(t, ReviveAll(y, CaptureIn(t, v), ts)) {
      FlipWithout(t, Flip(d.value), Nowhere);
      FlipAgree(Flip(t), FlipEnds(e), From(v));
    }
  }

  // ------------------------------------------------------------------------------------
  // Single edges
  // ------------------------------------------------------------------------------------

  /** One list of SameTable. */
  predicate SameList(x: seq<Slot>, y: seq<Slot>) {
    Shape(x, y) && forall k | 0 <= k < |x| :: Live(y[k]) <==> Live(x[k])
  }

  lemma SameTableIs(t: Table, y: Table)
    ensures SameTable(t, y) <==>
            (forall u: nat :: SameList(List(t.out, u), List(y.out, u)))
              && (forall w: nat :: SameList(List(t.inc, w), List(y.inc, w)))
  {
    if SameTable(t, y) {
      forall u: nat ensures SameList(List(t.out, u), List(y.out, u)) { assert Shape(List(t.out, u), List(y.out, u)); }
      forall w: nat ensures SameList(List(t.inc, w), List(y.inc, w)) { assert Shape(List(t.inc, w), List(y.inc, w)); }
    }
    if (forall u: nat :: SameList(List(t.out, u), List(y.out, u)))
      && (forall w: nat :: SameList(List(t.inc, w), List(y.inc, w))) {
      forall u: nat, j: nat | j < |List(t.out, u)| ensures Live(List(y.out, u)[j]) <==> Live(List(t.out, u)[j]) {
        assert SameList(List(t.out, u), List(y.out, u));
      }
      forall w: nat, m: nat | m < |List(t.inc, w)| ensures Live(List(y.inc, w)[m]) <==> Live(List(t.inc, w)[m]) {
        assert SameList(List(t.inc, w), List(y.inc, w));
      }
    }
  }

  /** put_generic_edge on both lists. */
  function PutEdge(t: Table, src: nat, dst: nat, data: int, ts: nat): (r: Table) {
    Table(t.out[src := List(t.out, src) + [Slot(dst, data, Some(ts))]],
          t.inc[dst := List(t.inc, dst) + [Slot(src, data, Some(ts))]])
  }

  /** What AddEdge records: the offset it wrote, and the incoming offset it searched for. */
  function PutCap(t: Table, src: nat, dst: nat, data: int, ts: nat): (e: Option<Cap>) {
    match Search(List(t.inc, dst) + [Slot(src, data, Some(ts))], Slot(src, data, Some(ts)))
    case None => None
    case Some(m) => Some(Cap(src, dst, |List(t.out, src)|, m))
  }

  lemma {:induction false} FirstExactBefore(l: seq<Slot>, ks: seq<nat>, s: Slot, i: nat)
    requires (forall j | 0 <= j < |ks| :: ks[j] < |l|) && (forall a, b | 0 <= a < b < |ks| :: ks[a] < ks[b])
    requires i < |ks| && l[ks[i]].data == s.data && l[ks[i]].stamp == s.stamp
    ensures FirstExact(l, ks, s).Some? && FirstExact(l, ks, s).value <= ks[i]
  {
    if !(l[ks[0]].data == s.data && l[ks[0]].stamp == s.stamp) { FirstExactBefore(l, ks[1..], s, i - 1); }
  }

  /** The search finds the new incoming slot exactly if no visible one looks the same. */
  lemma PutCapExact(t: Table, src: nat, dst: nat, data: int, ts: nat)
    ensures PutCap(t, src, dst, data, ts).Some?
    ensures PutCap(t, src, dst, data, ts).value.ie == |List(t.inc, dst)|
        <==> Slot(src, data, Some(ts)) !in List(t.inc, dst)
  {
    var s, x := Slot(src, data, Some(ts)), List(t.inc, dst);
    if s in x { FindsDouble(x, s); } else { FindsNew(x, s); }
  }

  lemma FindsNew(x: seq<Slot>, s: Slot)
    requires Live(s) && s !in x
    ensures Search(x + [s], s) == Some(|x|)
  {
    var l := x + [s];
    assert l[|x|] == s;
    SearchFinds(l, |x|);
  }

  lemma FindsDouble(x: seq<Slot>, s: Slot)
    requires Live(s) && s in x
    ensures Search(x + [s], s).Some? && Search(x + [s], s).value < |x|
  {
    var l := x + [s];
    var k: nat :| k < |x| && x[k] == s;
    assert l[k] == s && l[|x|] == s;
    var ks := Candidates(l, s.nbr, |l|);
    assert k in ks && |x| in ks;
    var i :| 0 <= i < |ks| && ks[i] == k;
    var i' :| 0 <= i' < |ks| && ks[i'] == |x|;
    FirstExactBefore(l, ks, s, i);
  }

  lemma KillNewSlot(x: seq<Slot>, s: Slot, y: seq<Slot>)
    requires SameList(x + [s], y)
    ensures |x| < |y| && SameList(x, y[|x| := y[|x|].(stamp := None)])
  {
    assert y[|x|].nbr == (x + [s])[|x|].nbr;
    forall k | 0 <= k < |x|
      ensures y[k].nbr == x[k].nbr && y[k].data == x[k].data && (Live(y[k]) <==> Live(x[k]))
    {
      assert (x + [s])[k] == x[k];
    }
  }

  /** Undoing AddEdge, on any table with the same edges as the one it left behind. */
  lemma PutEdgeUndone(t: Table, y: Table, src: nat, dst: nat, data: int, ts: nat)
    requires SameTable(PutEdge(t, src, dst, data, ts), y) && Slot(src, data, Some(ts)) !in List(t.inc, dst)
    ensures PutCap(t, src, dst, data, ts).Some?
    ensures Restored(t, DeleteEdge(y, PutCap(t, src, dst, data, ts).value))
  {
    var p := PutEdge(t, src, dst, data, ts);
    PutCapExact(t, src, dst, data, ts);
    SameTableIs(p, y);
    assert SameList(List(p.out, src), List(y.out, src)) && SameList(List(p.inc, dst), List(y.inc, dst));
    KillNewSlot(List(t.out, src), Slot(dst, data, Some(ts)), List(y.out, src));
    KillNewSlot(List(t.inc, dst), Slot(src, data, Some(ts)), List(y.inc, dst));
    var d := DeleteEdge(y, PutCap(t, src, dst, data, ts).value).value;
    forall u: nat ensures SameList(List(t.out, u), List(d.out, u)) { assert SameList(List(p.out, u), List(y.out, u)); }
    forall w: nat ensures SameList(List(t.inc, w), List(d.inc, w)) { assert SameList(List(p.inc, w), List(y.inc, w)); }
    SameTableIs(t, d);
  }

  /** With a visible double the undo deletes the wrong incoming slot. */
  lemma PutEdgeMisses(t: Table, src: nat, dst: nat, data: int, ts: nat)
    requires Slot(src, data, Some(ts)) in List(t.inc, dst)
    ensures PutCap(t, src, dst, data, ts).Some?
    ensures !Restored(t, DeleteEdge(PutEdge(t, src, dst, data, ts), PutCap(t, src, dst, data, ts).value))
  {
    PutCapExact(t, src, dst, data, ts);
    var p, e, n := PutEdge(t, src, dst, data, ts), PutCap(t, src, dst, data, ts).value, |List(t.inc, dst)|;
    var d := DeleteEdge(p, e).value;
    assert Live(List(d.inc, dst)[n]);
    SameTableIs(t, d);
  }

  /** Both offsets name visible slots of an edge from src to dst. */
  predicate Addresses(t: Table, e: Cap) {
    && e.oe < |List(t.out, e.src)| && e.ie < |List(t.inc, e.dst)|
    && Live(List(t.out, e.src)[e.oe]) && List(t.out, e.src)[e.oe].nbr == e.dst
    && Live(List(t.inc, e.dst)[e.ie]) && List(t.inc, e.dst)[e.ie].nbr == e.src
  }

  lemma ReviveListed(x: seq<Slot>, k: nat, y: seq<Slot>, ts: nat)
    requires k < |x| && Live(x[k]) && SameList(x[k := x[k].(stamp := None)], y)
    ensures k < |y| && y[k].nbr == x[k].nbr && !Live(y[k]) && SameList(x, y[k := y[k].(stamp := Some(ts))])
  {
    var z := x[k := x[k].(stamp := None)];
    assert y[k].nbr == z[k].nbr && y[k].data == z[k].data && !Live(z[k]);
  }

  lemma DeleteEdgeUndone(t: Table, y: Table, e: Cap, ts: nat)
    requires Addresses(t, e) && SameTable(DeleteEdge(t, e).value, y)
    ensures Restored(t, RevertDeleteEdge(y, e, ts))
  {
    var p := DeleteEdge(t, e).value;
    SameTableIs(p, y);
    assert SameList(List(p.out, e.src), List(y.out, e.src)) && SameList(List(p.inc, e.dst), List(y.inc, e.dst));
    ReviveListed(List(t.out, e.src), e.oe, List(y.out, e.src), ts);
    ReviveListed(List(t.inc, e.dst), e.ie, List(y.inc, e.dst), ts);
    var d := RevertDeleteEdge(y, e, ts).value;
    forall u: nat ensures SameList(List(t.out, u), List(d.out, u)) { assert SameList(List(p.out, u), List(y.out, u)); }
    forall w: nat ensures SameList(List(t.inc, w), List(d.inc, w)) { assert SameList(List(p.inc, w), List(y.inc, w)); }
    SameTableIs(t, d);
  }

  lemma DeleteEdgeMisses(t: Table, e: Cap, ts: nat)
    requires DeleteEdge(t, e).Some? && Restored(t, RevertDeleteEdge(DeleteEdge(t, e).value, e, ts))
    ensures Addresses(t, e)
  {
    var d := RevertDeleteEdge(DeleteEdge(t, e).value, e, ts).value;
    SameTableIs(t, d);
    assert SameList(List(t.out, e.src), List(d.out, e.src)) && SameList(List(t.inc, e.dst), List(d.inc, e.dst));
  }

  // ------------------------------------------------------------------------------------
  // Payloads
  // ------------------------------------------------------------------------------------

  /** The raw offset of the r-th visible slot, from offset k on; None past the end. */
  function Nth(l: seq<Slot>, r: nat, k: nat): (n: Option<nat>)
    ensures n.Some? ==> k <= n.value < |l| && Live(l[n.value])
    decreases |l| - k
  {
    if k >= |l| then None
    else if !Live(l[k]) then Nth(l, r, k + 1)
    else if r == 0 then Some(k)
    else Nth(l, r - 1, k + 1)
  }

  lemma {:induction false} NthSame(x: seq<Slot>, y: seq<Slot>, r: nat, k: nat)
    requires SameList(x, y)
    ensures Nth(x, r, k) == Nth(y, r, k)
    decreases |y| - k
  {
    if k < |y| {
      NthSame(x, y, r, k + 1);
      if 0 < r { NthSame(x, y, r - 1, k + 1); }
    }
  }

  lemma {:induction false} NthIgnoresData(x: seq<Slot>, y: seq<Slot>, r: nat, k: nat)
    requires |x| == |y| && forall j | 0 <= j < |x| :: Live(x[j]) <==> Live(y[j])
    ensures Nth(x, r, k) == Nth(y, r, k)
    decreases |y| - k
  {
    if k < |y| {
      NthIgnoresData(x, y, r, k + 1);
      if 0 < r { NthIgnoresData(x, y, r - 1, k + 1); }
    }
  }

  function SetNth(l: seq<Slot>, r: nat, value: int): (l': seq<Slot>)
    requires Nth(l, r, 0).Some?
  {
    var k := Nth(l, r, 0).value; l[k := l[k].(data := value)]
  }

  function NthData(l: seq<Slot>, r: nat): (x: int)
    requires Nth(l, r, 0).Some?
  {
    l[Nth(l, r, 0).value].data
  }

  /** Setting the payload of an edge on both sides, each addressed by its rank among the visible slots. */
  function SetEdge(t: Table, src: nat, dst: nat, oe: nat, ie: nat, value: int): (r: Option<Table>) {
    if Nth(List(t.out, src), oe, 0).None? || Nth(List(t.inc, dst), ie, 0).None? then None
    else Some(Table(t.out[src := SetNth(List(t.out, src), oe, value)],
      t.inc[dst := SetNth(List(t.inc, dst), ie, value)]))
  }

  lemma SetBack(x: seq<Slot>, y: seq<Slot>, r: nat, value: int)
    requires Nth(x, r, 0).Some? && SameList(SetNth(x, r, value), y)
    ensures Nth(y, r, 0).Some?
    ensures forall back :: SameList(x, SetNth(y, r, back)) <==> back == NthData(x, r)
  {
    var z := SetNth(x, r, value);
    NthIgnoresData(x, z, r, 0);
    NthSame(z, y, r, 0);
    var k := Nth(x, r, 0).value;
    forall j | 0 <= j < |x| && j != k
      ensures y[j].nbr == x[j].nbr && y[j].data == x[j].data && (Live(y[j]) <==> Live(x[j]))
    {
      assert z[j] == x[j];
    }
    assert z[k].nbr == x[k].nbr && Live(z[k]);
  }

  /** Undoing a payload change restores exactly if both sides carried the same payload. */
  lemma SetEdgeUndone(t: Table, y: Table, src: nat, dst: nat, oe: nat, ie: nat, value: int)
    requires SetEdge(t, src, dst, oe, ie, value).Some? && SameTable(SetEdge(t, src, dst, oe, ie, value).value, y)
    ensures Restored(t, SetEdge(y, src, dst, oe, ie, NthData(List(t.out, src), oe)))
            <==> NthData(List(t.out, src), oe) == NthData(List(t.inc, dst), ie)
  {
    var p := SetEdge(t, src, dst, oe, ie, value).value;
    var back := NthData(List(t.out, src), oe);
    SameTableIs(p, y);
    assert SameList(List(p.out, src), List(y.out, src)) && SameList(List(p.inc, dst), List(y.inc, dst));
    SetBack(List(t.out, src), List(y.out, src), oe, value);
    SetBack(List(t.inc, dst), List(y.inc, dst), ie, value);
    var d := SetEdge(y, src, dst, oe, ie, back).value;
    SameTableIs(t, d);
    forall u: nat | u != src ensures SameList(List(t.out, u), List(d.out, u)) {
      assert SameList(List(p.out, u), List(y.out, u));
    }
    forall w: nat | w != dst ensures SameList(List(t.inc, w), List(d.inc, w)) {
      assert SameList(List(p.inc, w), List(y.inc, w));
    }
    assert List(d.out, src) == SetNth(List(y.out, src), oe, back)
      && List(d.inc, dst) == SetNth(List(y.inc, dst), ie, back);
  }

  // ------------------------------------------------------------------------------------
  // Removals that find nothing
  // ------------------------------------------------------------------------------------

  lemma {:induction false} DropOutNone(t: Table, v: nat, k: nat)
    requires forall j: nat | k <= j < |List(t.out, v)| :: !Live(List(t.out, v)[j])
    ensures DropOut(t, v, k) == Some(t)
    decreases |List(t.out, v)| - k
  {
    if k < |List(t.out, v)| { DropOutNone(t, v, k + 1); }
  }

  /** Removing edges and then keeping the rest the same. */
  lemma WithoutThenSame(t: Table, y: Table, z: Table, e: Ends)
    requires Without(t, y, e) && TableUntouched(t, y) && SameTable(y, z)
    ensures Without(t, z, e)
  {
    forall u ensures Shape(List(t.out, u), List(z.out, u)) {
      assert Shape(List(t.out, u), List(y.out, u)) && Shape(List(y.out, u), List(z.out, u))
        && Untouched(List(t.out, u), List(y.out, u));
    }
    forall u ensures Shape(List(t.inc, u), List(z.inc, u)) {
      assert Shape(List(t.inc, u), List(y.inc, u)) && Shape(List(y.inc, u), List(z.inc, u))
        && Untouched(List(t.inc, u), List(y.inc, u));
    }
    forall u ensures |List(t.out, u)| == |List(y.out, u)| { assert Untouched(List(t.out, u), List(y.out, u)); }
    forall u ensures |List(t.inc, u)| == |List(y.inc, u)| { assert Untouched(List(t.inc, u), List(y.inc, u)); }
  }

  lemma SameRefl(t: Table)
    ensures SameTable(t, t) && TableUntouched(t, t)
  {
  }

  /** What was removed is missed exactly if something was removed. */
  lemma WithoutIsSame(t: Table, y: Table, e: Ends)
    requires TableOk(t) && Without(t, y, e)
    ensures SameTable(t, y) <==> Agree(t, e, Nowhere)
  {
    if Agree(t, e, Nowhere) { AgreeWithout(t, y, e, Nowhere); }
  }
}
