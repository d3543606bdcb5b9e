/**
 * Lists filled in timestamp order: what the log says about the order of the slots, and changes
 * that can be replayed because the lists they address were filled that way.
 */
module ListOrder {
  import opened Wrappers
  import opened Records
  import opened Commits

  predicate Before(a: Slot, b: Slot) { a.ts < b.ts || (a.ts == b.ts && a.pos < b.pos) }

  /** Filled in the order of the records. */
  predicate Ascending(l: seq<Slot>) { forall i, j | 0 <= i < j < |l| :: Before(l[i], l[j]) }

  /** Every slot was filled before record `pos` of timestamp `ts`. */
  predicate AllBefore(l: seq<Slot>, ts: nat, pos: nat) {
    forall i | 0 <= i < |l| :: l[i].ts < ts || (l[i].ts == ts && l[i].pos < pos)
  }

  ghost predicate Ordered(m: Layout, ts: nat, pos: nat) {
    forall id :: Ascending(ListOf(m, id)) && AllBefore(ListOf(m, id), ts, pos)
  }

  // ------------------------------------------------------------------------------------
  // The log fills every list in order
  // ------------------------------------------------------------------------------------

  lemma AppendOrdered(m: Layout, ts: nat, pos: nat, id: ListId, k: ItemKey)
    requires Ordered(m, ts, pos)
    ensures var n := Push(m, id, Slot(ts, pos, k));
      && Ascending(ListOf(n, id)) && AllBefore(ListOf(n, id), ts, pos + 1)
      && forall x | x != id :: ListOf(n, x) == ListOf(m, x)
  {
    assert Ascending(ListOf(m, id)) && AllBefore(ListOf(m, id), ts, pos);
  }

  lemma Later(m: Layout, ts: nat, pos: nat, ts': nat, pos': nat)
    requires Ordered(m, ts, pos) && (ts < ts' || (ts == ts' && pos <= pos'))
    ensures Ordered(m, ts', pos')
  {
    forall id ensures Ascending(ListOf(m, id)) && AllBefore(ListOf(m, id), ts', pos') {
      assert Ascending(ListOf(m, id)) && AllBefore(ListOf(m, id), ts, pos);
    }
  }

  lemma PlaceOrdered(m: Layout, ts: nat, pos: nat, r: Record)
    requires Ordered(m, ts, pos)
    ensures Ordered(Place(m, ts, pos, r), ts, pos + 1)
  {
    Later(m, ts, pos, ts, pos + 1);
    var n := Place(m, ts, pos, r);
    match r
    case InsertVertex(v, _) =>
      if Lid(m, v).None? {
        AppendOrdered(m, ts, pos, Rows(v.vlabel), V(v));
        forall id ensures Ascending(ListOf(n, id)) && AllBefore(ListOf(n, id), ts, pos + 1) {
          assert id != Rows(v.vlabel) ==> ListOf(n, id) == ListOf(m, id);
          assert Ascending(ListOf(m, id)) && AllBefore(ListOf(m, id), ts, pos + 1);
        }
      }
    case InsertEdge(src, dst, elabel, _) =>
      var a, b := Out(src, dst.vlabel, elabel), In(dst, src.vlabel, elabel);
      AppendOrdered(m, ts, pos, a, E(ts, pos));
      AppendOrdered(m, ts, pos, b, E(ts, pos));
      forall id ensures Ascending(ListOf(n, id)) && AllBefore(ListOf(n, id), ts, pos + 1) {
        assert id != a && id != b ==> ListOf(n, id) == ListOf(m, id);
        assert Ascending(ListOf(m, id)) && AllBefore(ListOf(m, id), ts, pos + 1);
      }
  }

  lemma {:induction false} LogOrdered(m: Layout, ts: nat, log: seq<Record>, n: nat)
    requires n <= |log| && Ordered(m, ts, 0)
    ensures Ordered(LayLog(m, ts, log, n), ts, n)
  {
    if n > 0 {
      LogOrdered(m, ts, log, n - 1);
      PlaceOrdered(LayLog(m, ts, log, n - 1), ts, n - 1, log[n - 1]);
    }
  }

  lemma {:induction false} ChangesOrdered(m: Layout, ts: nat, cs: seq<Change>, n: nat)
    requires n <= |cs| && Ordered(m, ts, 0)
    ensures Ordered(LayChanges(m, ts, cs, n), ts, n)
  {
    if n > 0 {
      ChangesOrdered(m, ts, cs, n - 1);
      var k := LayChanges(m, ts, cs, n - 1);
      if cs[n - 1].Insert? { PlaceOrdered(k, ts, n - 1, cs[n - 1].r); } else { Later(k, ts, n - 1, ts, n); }
    }
  }

  /** Replaying the log fills every list in the order of the records. */
  lemma {:induction false} LayOrdered(w: World, wal: map<nat, Entry>, r: nat)
    requires w.from <= r && Ordered(w.lists, w.from + 1, 0)
    ensures Ordered(Lay(w, wal, r), r + 1, 0)
  {
    if r > w.from {
      LayOrdered(w, wal, r - 1);
      var m := Lay(w, wal, r - 1);
      if r !in wal {
        Later(m, r, 0, r + 1, 0);
      } else if wal[r].Inserts? {
        LogOrdered(m, r, wal[r].log, |wal[r].log|);
        Later(Lay(w, wal, r), r, |wal[r].log|, r + 1, 0);
      } else {
        ChangesOrdered(m, r, wal[r].changes, |wal[r].changes|);
        Later(Lay(w, wal, r), r, |wal[r].changes|, r + 1, 0);
      }
    }
  }

  // ------------------------------------------------------------------------------------
  // Lists in log order
  // ------------------------------------------------------------------------------------

  ghost predicate SameSlots(a: seq<Slot>, b: seq<Slot>) { forall s :: s in a <==> s in b }

  lemma LastIsLast(a: seq<Slot>, b: seq<Slot>)
    requires Ascending(a) && Ascending(b) && SameSlots(a, b) && a != []
    ensures b != [] && b[|b| - 1] == a[|a| - 1]
  {
    var x := a[|a| - 1];
    assert x in b;
    var y := b[|b| - 1];
    assert y in a;
    var i :| 0 <= i < |a| && a[i] == y;
    var j :| 0 <= j < |b| && b[j] == x;
    assert i < |a| - 1 ==> Before(y, x);
    assert j < |b| - 1 ==> Before(x, y);
  }

  lemma FrontSlots(a: seq<Slot>, s: Slot)
    requires a != [] && Ascending(a)
    ensures s in a[..|a| - 1] <==> s in a && s != a[|a| - 1]
  {
    var p := a[..|a| - 1];
    assert a == p + [a[|a| - 1]];
    if s in p {
      var i :| 0 <= i < |p| && p[i] == s;
      assert Before(a[i], a[|a| - 1]);
    }
  }

  lemma {:induction false} AscendingUnique(a: seq<Slot>, b: seq<Slot>)
    requires Ascending(a) && Ascending(b) && SameSlots(a, b)
    ensures a == b
    decreases |a|
  {
    if a == [] {
      if b != [] { LastIsLast(b, a); }
    } else {
      LastIsLast(a, b);
      var p, q := a[..|a| - 1], b[..|b| - 1];
      forall s ensures s in p <==> s in q {
        FrontSlots(a, s);
        FrontSlots(b, s);
      }
      AscendingUnique(p, q);
      assert a == p + [a[|a| - 1]] && b == q + [b[|b| - 1]];
    }
  }

  /** The lists replay has built when it comes to the record behind `cs` at `ts`. */
  function InReplay(w: World, wal: map<nat, Entry>, ts: nat, cs: seq<Change>): (m: Layout)
    requires w.from < ts
  {
    LayChanges(Lay(w, wal, ts - 1), ts, cs, |cs|)
  }

  /**
   * A list is the one replay builds exactly if it was filled in timestamp order and holds just the
   * slots of the log.
   */
  lemma InLogOrderExact(w: World, wal: map<nat, Entry>, ts: nat, cs: seq<Change>, m: Layout, id: ListId)
    requires w.from < ts && Ordered(w.lists, w.from + 1, 0)
    ensures ListOf(m, id) == ListOf(InReplay(w, wal, ts, cs), id)
            <==> Ascending(ListOf(m, id)) && SameSlots(ListOf(m, id), ListOf(InReplay(w, wal, ts, cs), id))
  {
    LayOrdered(w, wal, ts - 1);
    ChangesOrdered(Lay(w, wal, ts - 1), ts, cs, |cs|);
    var b := ListOf(InReplay(w, wal, ts, cs), id);
    assert Ascending(b);
    if Ascending(ListOf(m, id)) && SameSlots(ListOf(m, id), b) { AscendingUnique(ListOf(m, id), b); }
  }

  // ------------------------------------------------------------------------------------
  // Changes
  // ------------------------------------------------------------------------------------

  /** The lists whose order decides what a change means. */
  predicate Addresses(c: Change, id: ListId) {
    match c
    case RemoveEdge(src, dst, elabel, _, _) => id == Out(src, dst.vlabel, elabel) || id == In(dst, src.vlabel, elabel)
    case SetEdge(src, dst, elabel, _, _, _, _) =>
      id == Out(src, dst.vlabel, elabel) || id == In(dst, src.vlabel, elabel)
    case RemoveVertex(_) => id.Rows?
    case _ => false
  }

  /** A change whose lists are the same in both layouts addresses the same items. */
  lemma SameListsAlike(v: View, m: Layout, n: Layout, ts: nat, pos: nat, c: Change)
    requires Effect(v, m, ts, pos, c).Some? && forall id | Addresses(c, id) :: ListOf(m, id) == ListOf(n, id)
    ensures Alike(v, m, n, c)
  {
    match c
    case RemoveVertex(x) =>
      forall y: VKey ensures Lid(m, y) == Lid(n, y) { assert Addresses(c, Rows(y.vlabel)); }
      assert Victims(v, m, x) == Victims(v, n, x);
    case RemoveEdge(src, dst, elabel, _, _) =>
      assert Addresses(c, Out(src, dst.vlabel, elabel)) && Addresses(c, In(dst, src.vlabel, elabel));
    case SetEdge(src, dst, elabel, _, _, _, _) =>
      assert Addresses(c, Out(src, dst.vlabel, elabel)) && Addresses(c, In(dst, src.vlabel, elabel));
    case _ =>
  }

  /**
   * A change of an update transaction is replayed as it was made if every list it addresses was
   * filled in timestamp order and holds just the slots of the log and of the transaction itself.
   */
  lemma FilledInOrderIsFine(w: World, wal: map<nat, Entry>, g: Graph, m: Layout, j: Work, ts: nat, c: Change)
    requires w.from < ts && Ordered(w.lists, w.from + 1, 0) && j.Modifying?
    requires Effect(Visible(g, ts), m, ts, |j.changes|, c).Some?
    requires forall id | Addresses(c, id) ::
      Ascending(ListOf(m, id)) && SameSlots(ListOf(m, id), ListOf(InReplay(w, wal, ts, j.changes), id))
    ensures FineChange(w, wal, g, m, j, ts, c)
  {
    forall id | Addresses(c, id) ensures ListOf(m, id) == ListOf(InReplay(w, wal, ts, j.changes), id) {
      InLogOrderExact(w, wal, ts, j.changes, m, id);
    }
    SameListsAlike(Visible(g, ts), m, InReplay(w, wal, ts, j.changes), ts, |j.changes|, c);
  }
}
