/**
 * The graph and the log stay together: step by step, exactly as long as no ingestion meets a vertex
 * that is already there and every change addresses the same items in the lists as they are and in
 * the lists in log order.
 */
module Agreement {
  import opened Wrappers
  import opened VersionManager
  import opened Exclusion
  import opened Frontier
  import opened Records
  import opened Commits

  /** CalmInv looks at the graph, the log and the barrier only, and needs the clock not to run back. */
  lemma CalmFrame(w: World, s: Sys, s': Sys)
    requires SysShaped(w, s) && SysShaped(w, s') && w.from <= s.barrier && CalmInv(w, s)
    requires s'.graph == s.graph && s'.wal == s.wal && s'.applied == s.applied
    requires s'.barrier == s.barrier && s.vm.write <= s'.vm.write
    ensures CalmInv(w, s')
  {
    forall t: nat | s'.barrier < t ensures BornFrom(s'.graph, LogAt(s', t), t) {
      assert LogAt(s', t) == LogAt(s, t);
    }
  }

  lemma CalmAppend(w: World, s: Sys, i: nat)
    requires CoreInv(w, s) && CalmInv(w, s) && SEnabled(w, s, i, Append)
    ensures CalmInv(w, SExec(w, s, i, Append))
  {
    var s' := SExec(w, s, i, Append);
    var ts := s.vm.pcs[i].ts;
    HeldPastRead(w.c, s.vm, i);
    ReplayLocal(w, s.wal, s'.wal, s.barrier);
    forall t: nat | s.barrier < t ensures BornFrom(s'.graph, LogAt(s', t), t) {
      assert LogAt(s', t) == LogAt(s, t);
    }
  }

  /** One more record: the items born at its timestamp are those of the longer prefix. */
  lemma BornGrows(g: Graph, log: seq<Record>, t: nat, n: nat)
    requires n < |log| && BornFrom(g, log[..n], t) && Ingestible(g, log[n], t)
    requires KeyAt(log, t, n) !in g
    ensures BornFrom(g[KeyAt(log, t, n) := Item(ContentOf(log[n]), t)], log[..n + 1], t)
  {
    var old_, new_ := log[..n], log[..n + 1];
    var g' := g[KeyAt(log, t, n) := Item(ContentOf(log[n]), t)];
    ItemsGrow(g, log, t, n);
    forall k | k in g' && g'[k].birth == t
      ensures exists p :: 0 <= p < |new_| && k == KeyAt(new_, t, p)
    {
      BornKey(g, log, t, n, k);
    }
    assert old_ == new_[..n];
    forall p | 0 <= p < |new_| ensures Grounded(g', new_, t, p) {
      GroundedGrows(g, g', new_, t, p);
    }
  }

  lemma ItemsGrow(g: Graph, log: seq<Record>, t: nat, n: nat)
    requires n < |log| && BornFrom(g, log[..n], t) && KeyAt(log, t, n) !in g
    ensures var g', new_ := g[KeyAt(log, t, n) := Item(ContentOf(log[n]), t)], log[..n + 1];
      && (forall p | 0 <= p < |new_| :: KeyAt(new_, t, p) in g' && g'[KeyAt(new_, t, p)] == Item(ContentOf(new_[p]), t))
      && (forall p, q | 0 <= p < q < |new_| :: KeyAt(new_, t, p) != KeyAt(new_, t, q))
  {
    var old_, new_ := log[..n], log[..n + 1];
    assert forall p | 0 <= p < n :: KeyAt(old_, t, p) == KeyAt(new_, t, p);
    assert KeyAt(new_, t, n) == KeyAt(log, t, n);
  }

  lemma BornKey(g: Graph, log: seq<Record>, t: nat, n: nat, k: ItemKey)
    requires n < |log| && BornFrom(g, log[..n], t)
    requires k == KeyAt(log, t, n) || (k in g && g[k].birth == t)
    ensures var new_ := log[..n + 1]; exists p :: 0 <= p < |new_| && k == KeyAt(new_, t, p)
  {
    var old_, new_ := log[..n], log[..n + 1];
    if k == KeyAt(log, t, n) {
      assert k == KeyAt(new_, t, n);
    } else {
      var p :| 0 <= p < |old_| && k == KeyAt(old_, t, p);
      assert k == KeyAt(new_, t, p);
    }
  }

  lemma GroundedGrows(g: Graph, g': Graph, log: seq<Record>, t: nat, p: nat)
    requires 0 < |log| && p < |log| && BornFrom(g, log[..|log| - 1], t)
    requires forall k | k in g :: k in g' && g'[k] == g[k]
    requires p == |log| - 1 ==> Ingestible(g, log[p], t)
    ensures Grounded(g', log, t, p)
  {
    var old_ := log[..|log| - 1];
    if log[p].InsertEdge? {
      if p < |old_| {
        assert Grounded(g, old_, t, p) && old_[p] == log[p];
        BornNotAfter(g, old_, t, p, log[p].src);
        BornNotAfter(g, old_, t, p, log[p].dst);
      }
      EndKept(g, g', old_, log, t, p, log[p].src);
      EndKept(g, g', old_, log, t, p, log[p].dst);
    }
  }

  lemma BornNotAfter(g: Graph, log: seq<Record>, t: nat, p: nat, e: VKey)
    requires p < |log| && BornFrom(g, log, t) && EndBefore(g, log, t, p, e)
    ensures V(e) in g && g[V(e)].birth <= t
  {
    if g[V(e)].birth >= t {
      var q :| 0 <= q < p && KeyAt(log, t, q) == V(e);
    }
  }

  lemma EndKept(g: Graph, g': Graph, old_: seq<Record>, new_: seq<Record>, t: nat, p: nat, e: VKey)
    requires p <= |old_| < |new_| && old_ == new_[..|old_|] && BornFrom(g, old_, t)
    requires forall k | k in g :: k in g' && g'[k] == g[k]
    requires V(e) in g && g[V(e)].birth <= t
    requires p < |old_| ==> EndBefore(g, old_, t, p, e)
    ensures EndBefore(g', new_, t, p, e)
  {
    if g[V(e)].birth == t {
      if p < |old_| {
        var q :| 0 <= q < p && KeyAt(old_, t, q) == V(e);
        assert KeyAt(new_, t, q) == V(e);
      } else {
        var q :| 0 <= q < |old_| && V(e) == KeyAt(old_, t, q);
        assert KeyAt(new_, t, q) == V(e);
      }
    }
  }

  lemma FreshKey(w: World, s: Sys, i: nat)
    requires CoreInv(w, s) && CalmInv(w, s) && SEnabled(w, s, i, Ingest) && NewVertex(s, s.vm.pcs[i].ts)
    ensures var ts := s.vm.pcs[i].ts;
      KeyAt(s.wal[ts].log, ts, s.applied[ts]) !in s.graph
  {
    var ts := s.vm.pcs[i].ts;
    var log, n := s.wal[ts].log, s.applied[ts];
    var k := KeyAt(log, ts, n);
    HeldPastRead(w.c, s.vm, i);
    EdgePositions(s.graph, LogAt(s, ts), ts, n);
  }

  /** An edge item born at `t` has a position inside the applied part of the log. */
  lemma EdgePositions(g: Graph, log: seq<Record>, t: nat, n: nat)
    requires BornFrom(g, log, t)
    ensures E(t, n) in g && g[E(t, n)].birth == t ==> n < |log|
  {
  }

  /** A new item leaves what was born at other timestamps alone. */
  lemma BornKept(g: Graph, log: seq<Record>, t: nat, k: ItemKey, it: Item)
    requires BornFrom(g, log, t) && k !in g && it.birth != t
    ensures BornFrom(g[k := it], log, t)
  {
    var g' := g[k := it];
    forall p | 0 <= p < |log| ensures Grounded(g', log, t, p) {
      assert Grounded(g, log, t, p);
    }
  }

  /** Ingesting a record extends what its timestamp brought and leaves the others alone. */
  lemma BornIngest(w: World, s: Sys, i: nat, t: nat)
    requires CoreInv(w, s) && CalmInv(w, s) && SEnabled(w, s, i, Ingest) && s.barrier < t
    requires NewVertex(s, s.vm.pcs[i].ts)
    ensures var s' := SExec(w, s, i, Ingest); BornFrom(s'.graph, LogAt(s', t), t)
  {
    LogAtIngest(w, s, i, t);
    BornAfter(w, s, i, t);
  }

  lemma BornAfter(w: World, s: Sys, i: nat, t: nat)
    requires CoreInv(w, s) && CalmInv(w, s) && SEnabled(w, s, i, Ingest) && s.barrier < t
    requires NewVertex(s, s.vm.pcs[i].ts)
    ensures var ts := s.vm.pcs[i].ts;
      var log, n := s.wal[ts].log, s.applied[ts];
      BornFrom(s.graph[KeyAt(log, ts, n) := Item(ContentOf(log[n]), ts)], if t
        == ts then log[..n + 1] else LogAt(s, t), t)
  {
    var ts := s.vm.pcs[i].ts;
    FreshKey(w, s, i);
    assert BornFrom(s.graph, LogAt(s, t), t);
    BornWith(s.graph, s.wal[ts].log, s.applied[ts], ts, t, LogAt(s, t));
  }

  lemma BornWith(g: Graph, log: seq<Record>, n: nat, ts: nat, t: nat, at: seq<Record>)
    requires n < |log| && KeyAt(log, ts, n) !in g && Ingestible(g, log[n], ts) && BornFrom(g, at, t)
    requires t == ts ==> at == log[..n]
    ensures BornFrom(g[KeyAt(log, ts, n) := Item(ContentOf(log[n]), ts)], if t == ts then log[..n + 1] else at, t)
  {
    if t == ts {
      BornGrows(g, log, ts, n);
    } else {
      BornKept(g, at, t, KeyAt(log, ts, n), Item(ContentOf(log[n]), ts));
    }
  }

  lemma LogAtIngest(w: World, s: Sys, i: nat, t: nat)
    requires CoreInv(w, s) && SEnabled(w, s, i, Ingest)
    ensures var s', ts := SExec(w, s, i, Ingest), s.vm.pcs[i].ts;
      var log, n := s.wal[ts].log, s.applied[ts];
      && s'.graph == s.graph[KeyAt(log, ts, n) := Item(ContentOf(log[n]), ts)]
      && LogAt(s', t) == if t == ts then log[..n + 1] else LogAt(s, t)
  {
  }

  lemma LaterItemUnseen(g: Graph, k: ItemKey, it: Item, r: nat)
    requires k !in g && r < it.birth
    ensures Visible(g[k := it], r) == Visible(g, r)
  {
  }

  lemma CalmIngest(w: World, s: Sys, i: nat)
    requires CoreInv(w, s) && CalmInv(w, s) && SEnabled(w, s, i, Ingest) && NewVertex(s, s.vm.pcs[i].ts)
    ensures CalmInv(w, SExec(w, s, i, Ingest))
  {
    var s' := SExec(w, s, i, Ingest);
    var ts := s.vm.pcs[i].ts;
    var log, n := s.wal[ts].log, s.applied[ts];
    HeldPastRead(w.c, s.vm, i);
    FreshKey(w, s, i);
    LaterItemUnseen(s.graph, KeyAt(log, ts, n), Item(ContentOf(log[n]), ts), s.barrier);
    forall t: nat | s.barrier < t ensures BornFrom(s'.graph, LogAt(s', t), t) {
      BornIngest(w, s, i, t);
    }
  }

  /** No update transaction before or after the step. */
  lemma CalmStep(w: World, s: Sys, i: nat, x: SAct)
    requires CoreInv(w, s) && CalmInv(w, s) && SEnabled(w, s, i, x) && Fine(w, s, i, x)
    requires forall u: nat :: !Updater(s, u)
    requires forall u: nat :: !Updater(SExec(w, s, i, x), u)
    ensures CalmInv(w, SExec(w, s, i, x))
  {
    var s' := SExec(w, s, i, x);
    assert !Updater(s, i) && !Updater(s', i);
    assert JobOk(s.vm.pcs[i], s.work[i], s.wal);
    if x.Append? {
      CalmAppend(w, s, i);
    } else if x.Ingest? {
      CalmIngest(w, s, i);
    } else {
      CalmFrame(w, s, s');
    }
  }

  lemma DrainedIsOnly(w: World, s: Sys, i: nat, u: nat)
    requires CoreInv(w, s) && i < w.c.sessions && s.vm.pcs[i].Drained?
    ensures !Updater(s, u)
  {
    assert IsUpdater(s.vm.pcs[i]) && (u < w.c.sessions && IsUpdater(s.vm.pcs[u]) ==> u == i);
  }

  /** Taking the update timestamp: the whole graph is what the log says so far. */
  lemma EnterUpdate(w: World, s: Sys, i: nat)
    requires SysInv(w, s) && SEnabled(w, s, i, Vm(Take)) && s.vm.pcs[i].Drained?
    requires w.c.sessions <= w.c.threads + 1 && InWindow(w.c, s.vm)
    ensures var s' := SExec(w, s, i, Vm(Take));
      CoreInv(w, s') ==> w.from < s'.vm.pcs[i].ts && BusyInv(w, s', i)
  {
    var s' := SExec(w, s, i, Vm(Take));
    AloneAtFrontier(w.c, s.vm, i);
    forall u: nat ensures !Updater(s, u) { DrainedIsOnly(w, s, i, u); }
    PrefixOfLog(w, s, s.vm.read);
    assert Visible(s.graph, s.vm.read + 1) == Visible(s.graph, s.vm.read);
  }

  /** While `u` updates, the others touch neither the graph nor the log. */
  lemma BusyOthers(w: World, s: Sys, u: nat, i: nat, x: SAct)
    requires CoreInv(w, s) && SEnabled(w, s, i, x) && u < w.c.sessions && i != u
    requires s.vm.pcs[u].Updating?
    ensures var s' := SExec(w, s, i, x);
      && s'.graph == s.graph && s'.wal == s.wal && s'.barrier == s.barrier
      && s'.vm.pcs[u] == s.vm.pcs[u] && s'.work[u] == s.work[u]
      && !s'.vm.pcs[i].Updating?
  {
    assert IsAlone(s.vm.pcs[u]) && IsUpdater(s.vm.pcs[u]);
    assert !IsGranted(s.vm.pcs[i]) && !IsUpdater(s.vm.pcs[i]);
    assert JobOk(s.vm.pcs[i], s.work[i], s.wal);
  }

  lemma EffectKeys(v: View, m: Layout, ts: nat, pos: nat, c: Change, k: ItemKey)
    requires Effect(v, m, ts, pos, c).Some? && k in Effect(v, m, ts, pos, c).value
    ensures k in v || k.V? || k == E(ts, pos)
  {
  }

  lemma RestampShows(g: Graph, v: View, t: nat)
    requires NothingAfter(g, t) && forall k | k in v :: k in g || k.V? || k.ts <= t
    ensures Visible(Restamp(g, v, t), t) == v && NothingAfter(Restamp(g, v, t), t)
  {
  }

  lemma AlterShows(g: Graph, m: Layout, ts: nat, pos: nat, c: Change)
    requires NothingAfter(g, ts) && Effect(Visible(g, ts), m, ts, pos, c).Some?
    ensures var v := Effect(Visible(g, ts), m, ts, pos, c).value;
      Visible(Restamp(g, v, ts), ts) == v && NothingAfter(Restamp(g, v, ts), ts)
  {
    var v := Effect(Visible(g, ts), m, ts, pos, c).value;
    forall k | k in v ensures k in g || k.V? || k.ts <= ts { EffectKeys(Visible(g, ts), m, ts, pos, c, k); }
    RestampShows(g, v, ts);
  }

  /** One record more, in the lists in log order. */
  lemma RedoNext(v: View, m: Layout, ts: nat, cs: seq<Change>, c: Change, u: View)
    requires RunChanges(v, m, ts, cs, |cs|) == Some(u)
    ensures RunChanges(v, m, ts, cs + [c], |cs + [c]|) == Effect(u, LayChanges(m, ts, cs, |cs|), ts, |cs|, c)
  {
    ChangesPrefix(v, m, ts, cs, c, |cs|);
  }

  lemma OpenNext(w: World, wal: map<nat, Entry>, g: Graph, m: Layout, j: Work, ts: nat, c: Change)
    requires w.from < ts && j.Modifying? && Open(w, wal, g, j, ts)
    requires Effect(Visible(g, ts), m, ts, |j.changes|, c).Some?
    ensures var v := Effect(Visible(g, ts), m, ts, |j.changes|, c).value;
      Open(w, wal, Restamp(g, v, ts), Modifying(j.was, j.changes + [c]), ts) <==> FineChange(w, wal, g, m, j, ts, c)
  {
    var v, n := Visible(g, ts), LayChanges(Lay(w, wal, ts - 1), ts, j.changes, |j.changes|);
    AlterShows(g, m, ts, |j.changes|, c);
    RedoNext(Visible(j.was, ts - 1), Lay(w, wal, ts - 1), ts, j.changes, c, v);
    EffectExact(v, m, n, ts, |j.changes|, c);
  }

  /** What a change does to an open update transaction. */
  ghost predicate Altered(s: Sys, s': Sys, u: nat, c: Change)
    requires u < |s.vm.pcs| && u < |s.work| && s.vm.pcs[u].Updating? && s.work[u].Modifying?
  {
    var ts, j := s.vm.pcs[u].ts, s.work[u];
    var e := Effect(Visible(s.graph, ts), s.layout, ts, |j.changes|, c);
    && e.Some? && s'.vm == s.vm && s'.wal == s.wal && s'.barrier == s.barrier && |s'.work| == |s.work|
    && s'.work[u] == Modifying(j.was, j.changes + [c]) && s'.graph == Restamp(s.graph, e.value, ts)
  }

  lemma AlterIs(w: World, s: Sys, u: nat, c: Change)
    requires SysShaped(w, s) && SEnabled(w, s, u, Alter(c))
    ensures Altered(s, SExec(w, s, u, Alter(c)), u, c)
  {
  }

  /** Only the open transaction counts. */
  lemma BusyIsOpen(w: World, s: Sys, u: nat)
    requires SysShaped(w, s) && w.from <= s.barrier && u < w.c.sessions && s.vm.pcs[u].Updating?
    requires w.from < s.vm.pcs[u].ts && s.work[u].Modifying?
    ensures BusyInv(w, s, u) <==> Open(w, s.wal, s.graph, s.work[u], s.vm.pcs[u].ts)
  {
  }

  lemma AlteredOpen(w: World, s: Sys, s': Sys, u: nat, c: Change)
    requires u < |s.vm.pcs| && u < |s.work| && s.vm.pcs[u].Updating? && s.work[u].Modifying? && Altered(s, s', u, c)
    requires w.from < s.vm.pcs[u].ts && Open(w, s.wal, s.graph, s.work[u], s.vm.pcs[u].ts)
    ensures Open(w, s'.wal, s'.graph, s'.work[u], s'.vm.pcs[u].ts)
            <==> FineChange(w, s.wal, s.graph, s.layout, s.work[u], s.vm.pcs[u].ts, c)
  {
    OpenNext(w, s.wal, s.graph, s.layout, s.work[u], s.vm.pcs[u].ts, c);
  }

  /** A change keeps the records and the graph together exactly if it addresses the same items in both lists. */
  lemma AlterExact(w: World, s: Sys, u: nat, c: Change)
    requires CoreInv(w, s) && SEnabled(w, s, u, Alter(c)) && w.from < s.vm.pcs[u].ts && BusyInv(w, s, u)
    ensures BusyInv(w, SExec(w, s, u, Alter(c)), u) <==> Fine(w, s, u, Alter(c))
  {
    var s' := SExec(w, s, u, Alter(c));
    AlterIs(w, s, u, c);
    BusyIsOpen(w, s, u);
    BusyIsOpen(w, s', u);
    AlteredOpen(w, s, s', u, c);
  }

  /** An abort keeps the graph what the log says exactly if it brings back what was there. */
  lemma RollBackExact(w: World, s: Sys, u: nat, to: Graph)
    requires CoreInv(w, s) && SEnabled(w, s, u, RollBack(to)) && w.from < s.vm.pcs[u].ts && BusyInv(w, s, u)
    ensures BusyInv(w, SExec(w, s, u, RollBack(to)), u) <==> Fine(w, s, u, RollBack(to))
  {
    assert JobOk(s.vm.pcs[u], s.work[u], s.wal);
    NothingLogged(w, s.wal, s.graph, s.work[u], to, s.vm.pcs[u].ts);
  }

  lemma NothingLogged(w: World, wal: map<nat, Entry>, g: Graph, j: Work, to: Graph, ts: nat)
    requires w.from < ts && ts !in wal && j.Modifying? && Open(w, wal, g, j, ts)
    ensures ReplayTo(w, wal, ts) == Some(Visible(to, ts)) <==> BringsBack(j, to, ts)
  {
    assert Visible(j.was, ts) == Visible(j.was, ts - 1);
  }

  lemma CommitSettles(w: World, s: Sys, u: nat)
    requires CoreInv(w, s) && SEnabled(w, s, u, SAct.Commit) && w.from < s.vm.pcs[u].ts && BusyInv(w, s, u)
    ensures BusyInv(w, SExec(w, s, u, SAct.Commit), u)
  {
    var ts := s.vm.pcs[u].ts;
    ReplayLocal(w, s.wal, SExec(w, s, u, SAct.Commit).wal, ts - 1);
  }

  lemma BusyOwn(w: World, s: Sys, u: nat, x: SAct)
    requires CoreInv(w, s) && SEnabled(w, s, u, x) && u < w.c.sessions
    requires s.vm.pcs[u].Updating? && w.from < s.vm.pcs[u].ts && BusyInv(w, s, u)
    requires !x.Vm? && Fine(w, s, u, x)
    ensures BusyInv(w, SExec(w, s, u, x), u)
  {
    assert JobOk(s.vm.pcs[u], s.work[u], s.wal);
    if x.Alter? {
      AlterExact(w, s, u, x.change);
    } else if x.RollBack? {
      RollBackExact(w, s, u, x.to);
    } else {
      CommitSettles(w, s, u);
    }
  }

  /** Releasing or reverting an update timestamp: the barrier moves up to it. */
  lemma LeaveUpdate(w: World, s: Sys, u: nat, a: Act)
    requires CoreInv(w, s) && SEnabled(w, s, u, Vm(a)) && s.vm.pcs[u].Updating?
    requires w.from < s.vm.pcs[u].ts && BusyInv(w, s, u)
    requires w.c.sessions <= w.c.threads + 1 && InWindow(w.c, s.vm)
    ensures var s' := SExec(w, s, u, Vm(a)); CoreInv(w, s') ==> CalmInv(w, s')
  {
    if a.Publish? { PublishLeaves(w, s, u); } else { RevertLeaves(w, s, u); }
  }

  lemma PublishLeaves(w: World, s: Sys, u: nat)
    requires CoreInv(w, s) && SEnabled(w, s, u, Vm(Publish)) && s.vm.pcs[u].Updating?
    requires w.from < s.vm.pcs[u].ts && BusyInv(w, s, u)
    requires w.c.sessions <= w.c.threads + 1 && InWindow(w.c, s.vm)
    ensures var s' := SExec(w, s, u, Vm(Publish)); CoreInv(w, s') ==> CalmInv(w, s')
  {
    var s' := SExec(w, s, u, Vm(Publish));
    AloneAtFrontier(w.c, s.vm, u);
    PublishUpdate(w.c, s.vm, u);
    if CoreInv(w, s') { CalmAtBarrier(w, s'); }
  }

  lemma RevertLeaves(w: World, s: Sys, u: nat)
    requires CoreInv(w, s) && SEnabled(w, s, u, Vm(Revert)) && s.vm.pcs[u].Updating?
    requires w.from < s.vm.pcs[u].ts && BusyInv(w, s, u)
    requires w.c.sessions <= w.c.threads + 1 && InWindow(w.c, s.vm)
    ensures var s' := SExec(w, s, u, Vm(Revert)); CoreInv(w, s') ==> CalmInv(w, s')
  {
    var s' := SExec(w, s, u, Vm(Revert));
    AloneAtFrontier(w.c, s.vm, u);
    RevertStep(w.c, s.vm, u);
    if CoreInv(w, s') { CalmAtBarrier(w, s'); }
  }

  /** At the barrier, with nothing later. */
  lemma CalmAtBarrier(w: World, s: Sys)
    requires CoreInv(w, s) && s.vm.write == s.barrier + 1 && NothingAfter(s.graph, s.barrier)
    requires ReplayTo(w, s.wal, s.barrier) == Some(Visible(s.graph, s.barrier))
    ensures CalmInv(w, s)
  {
    forall t: nat | s.barrier < t ensures BornFrom(s.graph, LogAt(s, t), t) { assert t !in s.wal; }
  }

  lemma OneUpdater(w: World, s: Sys, u: nat, v: nat)
    requires CoreInv(w, s) && Updater(s, u) && Updater(s, v)
    ensures u == v
  {
    assert IsUpdater(s.vm.pcs[u]) && IsUpdater(s.vm.pcs[v]);
  }

  // Inserts are whole.

  /** Nothing finishes and no record comes or goes. */
  lemma WholeFrame(s: Sys, s': Sys)
    requires Whole(s) && s'.wal == s.wal && s'.applied == s.applied
    requires forall t: nat :: Finished(s'.vm, t) ==> Finished(s.vm, t)
    ensures Whole(s')
  {
  }

  /** A session with a new vertex or a grounded edge before it does not give up. */
  lemma NoGivingUp(w: World, s: Sys, i: nat)
    requires CoreInv(w, s) && CalmInv(w, s) && SEnabled(w, s, i, Vm(Publish)) && GivesUp(s, i, Vm(Publish))
    ensures !NewVertex(s, s.vm.pcs[i].ts)
  {
    var ts := s.vm.pcs[i].ts;
    var log, n := s.wal[ts].log, s.applied[ts];
    HeldPastRead(w.c, s.vm, i);
    assert GroundOne(s.vm.pcs[i], s.work[i], s.graph, s.wal);
    if log[n].InsertEdge? {
      KnownIsSeen(w, s, ts, log[n].src);
      KnownIsSeen(w, s, ts, log[n].dst);
    }
  }

  lemma KnownIsSeen(w: World, s: Sys, t: nat, e: VKey)
    requires CoreInv(w, s) && CalmInv(w, s) && s.barrier < t && t in s.wal && s.wal[t].Inserts?
    requires t in s.applied && s.applied[t] < |s.wal[t].log| && EndKnown(s.graph, t, s.wal[t].log, s.applied[t], e)
    ensures Sees(s.graph, t, e)
  {
    var log, n := s.wal[t].log, s.applied[t];
    if Makes(log, n, e) {
      var q :| 0 <= q < n && log[q] == InsertVertex(e, log[q].props);
      assert BornFrom(s.graph, LogAt(s, t), t);
      assert KeyAt(LogAt(s, t), t, q) == V(e);
    }
  }

  /** Publishing keeps inserts whole exactly if the session does not give up. */
  lemma WholePublish(w: World, s: Sys, i: nat)
    requires CoreInv(w, s) && Whole(s) && SEnabled(w, s, i, Vm(Publish))
    requires w.c.sessions <= w.c.threads + 1 && InWindow(w.c, s.vm)
    ensures Whole(SExec(w, s, i, Vm(Publish))) <==> !GivesUp(s, i, Vm(Publish))
  {
    var s' := SExec(w, s, i, Vm(Publish));
    var ts := s.vm.pcs[i].ts;
    VmFinished(w.c, s.vm, i, Publish);
    assert JobOk(s.vm.pcs[i], s.work[i], s.wal);
    assert Finished(s'.vm, ts);
    if !GivesUp(s, i, Vm(Publish)) {
      forall t | t in s.wal && s.wal[t].Inserts? && t in s.applied && Finished(s'.vm, t)
        ensures s.applied[t] == |s.wal[t].log|
      {
        assert Finished(s.vm, t) || t == ts;
      }
    }
  }

  lemma WholeOther(w: World, s: Sys, i: nat, x: SAct)
    requires CoreInv(w, s) && Whole(s) && SEnabled(w, s, i, x) && x != Vm(Publish)
    requires w.c.sessions <= w.c.threads + 1 && InWindow(w.c, s.vm)
    ensures Whole(SExec(w, s, i, x))
  {
    var s' := SExec(w, s, i, x);
    if x.Vm? {
      VmFinished(w.c, s.vm, i, x.a);
      WholeFrame(s, s');
    } else {
      assert JobOk(s.vm.pcs[i], s.work[i], s.wal);
      HeldPastRead(w.c, s.vm, i);
    }
  }

  /** Where an insert is open, no update is. */
  lemma InserterIsCalm(w: World, s: Sys, i: nat)
    requires CoreInv(w, s) && i < w.c.sessions && s.vm.pcs[i].Inserting?
    ensures forall u: nat :: !Updater(s, u)
  {
    forall u: nat ensures !Updater(s, u) { if Updater(s, u) { NoInserter(w, s, u, i); } }
  }

  lemma WholeStep(w: World, s: Sys, i: nat, x: SAct)
    requires SysInv(w, s) && SEnabled(w, s, i, x) && Fine(w, s, i, x)
    requires w.c.sessions <= w.c.threads + 1 && InWindow(w.c, s.vm)
    ensures Whole(SExec(w, s, i, x))
  {
    if x == Vm(Publish) {
      WholePublish(w, s, i);
      if GivesUp(s, i, x) {
        InserterIsCalm(w, s, i);
        NoGivingUp(w, s, i);
      }
    } else {
      WholeOther(w, s, i, x);
    }
  }

  lemma SysStepLeave(w: World, s: Sys, u: nat, a: Act)
    requires SysInv(w, s) && SEnabled(w, s, u, Vm(a)) && Updater(s, u)
    requires w.c.sessions <= w.c.threads + 1 && InWindow(w.c, s.vm)
    ensures SysInv(w, SExec(w, s, u, Vm(a)))
  {
    var s' := SExec(w, s, u, Vm(a));
    CoreStep(w, s, u, Vm(a));
    WholeStep(w, s, u, Vm(a));
    LeaveUpdate(w, s, u, a);
    forall v: nat ensures !Updater(s', v) {
      if v != u && Updater(s', v) { OneUpdater(w, s, u, v); }
    }
  }

  lemma BusyFrame(w: World, s: Sys, s': Sys, u: nat)
    requires SysShaped(w, s) && SysShaped(w, s') && w.from <= s.barrier && w.from <= s'.barrier
    requires u < w.c.sessions && s.vm.pcs[u].Updating? && s'.vm.pcs[u] == s.vm.pcs[u]
    requires w.from < s.vm.pcs[u].ts && BusyInv(w, s, u)
    requires s'.graph == s.graph && s'.wal == s.wal && s'.work[u] == s.work[u]
    ensures BusyInv(w, s', u)
  {
  }

  lemma SysStepStay(w: World, s: Sys, i: nat, x: SAct, u: nat)
    requires SysInv(w, s) && SEnabled(w, s, i, x) && Fine(w, s, i, x) && Updater(s, u) && (i == u ==> !x.Vm?)
    requires w.c.sessions <= w.c.threads + 1 && InWindow(w.c, s.vm)
    ensures SysInv(w, SExec(w, s, i, x))
  {
    var s' := SExec(w, s, i, x);
    CoreStep(w, s, i, x);
    WholeStep(w, s, i, x);
    if i == u {
      BusyOwn(w, s, u, x);
    } else {
      BusyOthers(w, s, u, i, x);
      BusyFrame(w, s, s', u);
    }
    assert Updater(s', u);
    forall v: nat | Updater(s', v) ensures v == u { OneUpdater(w, s', u, v); }
  }

  lemma SysStepEnter(w: World, s: Sys, i: nat)
    requires SysInv(w, s) && SEnabled(w, s, i, Vm(Take)) && s.vm.pcs[i].Drained?
    requires w.c.sessions <= w.c.threads + 1 && InWindow(w.c, s.vm)
    ensures SysInv(w, SExec(w, s, i, Vm(Take)))
  {
    var s' := SExec(w, s, i, Vm(Take));
    CoreStep(w, s, i, Vm(Take));
    WholeOther(w, s, i, Vm(Take));
    EnterUpdate(w, s, i);
    assert Updater(s', i);
    forall v: nat | Updater(s', v) ensures v == i { OneUpdater(w, s', i, v); }
  }

  /** A step that takes no update timestamp makes nobody an updater. */
  lemma NoNewUpdater(w: World, s: Sys, i: nat, x: SAct)
    requires SysShaped(w, s) && SEnabled(w, s, i, x) && !(x == Vm(Take) && s.vm.pcs[i].Drained?)
    requires forall u: nat :: !Updater(s, u)
    ensures forall u: nat :: !Updater(SExec(w, s, i, x), u)
  {
    forall v: nat ensures !Updater(SExec(w, s, i, x), v) { assert !Updater(s, v); }
  }

  lemma SysStepCalm(w: World, s: Sys, i: nat, x: SAct)
    requires SysInv(w, s) && SEnabled(w, s, i, x) && Fine(w, s, i, x) && !(x == Vm(Take) && s.vm.pcs[i].Drained?)
    requires forall u: nat :: !Updater(s, u)
    requires w.c.sessions <= w.c.threads + 1 && InWindow(w.c, s.vm)
    ensures SysInv(w, SExec(w, s, i, x))
  {
    CoreStep(w, s, i, x);
    WholeStep(w, s, i, x);
    NoNewUpdater(w, s, i, x);
    CalmStep(w, s, i, x);
  }

  lemma SysStep(w: World, s: Sys, i: nat, x: SAct)
    requires SysInv(w, s) && SEnabled(w, s, i, x) && Fine(w, s, i, x)
    requires w.c.sessions <= w.c.threads + 1 && InWindow(w.c, s.vm)
    ensures SysInv(w, SExec(w, s, i, x))
  {
    if u: nat :| Updater(s, u) {
      if i == u && x.Vm? { SysStepLeave(w, s, u, x.a); } else { SysStepStay(w, s, i, x, u); }
    } else if x == Vm(Take) && s.vm.pcs[i].Drained? {
      SysStepEnter(w, s, i);
    } else {
      SysStepCalm(w, s, i, x);
    }
  }

  // ------------------------------------------------------------------------------------
  // Steps that do not
  // ------------------------------------------------------------------------------------

  lemma NotBorn(g: Graph, log: seq<Record>, t: nat, p: nat, ts: nat)
    requires p < |log| && KeyAt(log, t, p) in g && g[KeyAt(log, t, p)].birth == ts && ts != t
    ensures !BornFrom(g, log, t)
  {
  }

  /** Overwriting a vertex of a later insert takes it from what that insert brought. */
  lemma OverwriteBreaks(w: World, s: Sys, i: nat)
    requires SysInv(w, s) && SEnabled(w, s, i, Ingest) && !NewVertex(s, s.vm.pcs[i].ts)
    ensures !Good(w, SExec(w, s, i, Ingest))
  {
    var s', ts := SExec(w, s, i, Ingest), s.vm.pcs[i].ts;
    var t, p := LaterInsert(w, s, i);
    NotBorn(s'.graph, LogAt(s', t), t, p, ts);
    assert s'.barrier < t && !BornFrom(s'.graph, LogAt(s', t), t);
    InserterIsCalm(w, s, i);
    forall u: nat ensures !Updater(s', u) { assert !Updater(s, u); }
  }

  /** The oid that is already there was made by a later insert. */
  lemma LaterInsert(w: World, s: Sys, i: nat) returns (t: nat, p: nat)
    requires SysInv(w, s) && SEnabled(w, s, i, Ingest) && !NewVertex(s, s.vm.pcs[i].ts)
    ensures var s' := SExec(w, s, i, Ingest);
      && s.barrier < t && s.vm.pcs[i].ts < t && p < |LogAt(s', t)| && KeyAt(LogAt(s', t), t, p) in s'.graph
      && s'.graph[KeyAt(LogAt(s', t), t, p)].birth == s.vm.pcs[i].ts
  {
    var ts := s.vm.pcs[i].ts;
    var k := V(s.wal[ts].log[s.applied[ts]].v);
    InserterIsCalm(w, s, i);
    HeldPastRead(w.c, s.vm, i);
    t := s.graph[k].birth;
    assert ts < t && BornFrom(s.graph, LogAt(s, t), t);
    p :| 0 <= p < |LogAt(s, t)| && k == KeyAt(LogAt(s, t), t, p);
    assert LogAt(SExec(w, s, i, Ingest), t) == LogAt(s, t);
  }

  lemma StepBreaks(w: World, s: Sys, i: nat, x: SAct)
    requires SysInv(w, s) && SEnabled(w, s, i, x) && !Fine(w, s, i, x)
    requires w.c.sessions <= w.c.threads + 1 && InWindow(w.c, s.vm)
    ensures CoreInv(w, SExec(w, s, i, x)) && !Good(w, SExec(w, s, i, x))
  {
    CoreStep(w, s, i, x);
    if x.Ingest? {
      OverwriteBreaks(w, s, i);
    } else if GivesUp(s, i, x) {
      WholePublish(w, s, i);
    } else {
      assert Updater(s, i) && Updater(SExec(w, s, i, x), i);
      if x.Alter? { AlterExact(w, s, i, x.change); } else { RollBackExact(w, s, i, x.to); }
    }
  }

  /** A step leaves the graph and the log together exactly if it is fine. */
  lemma StepExact(w: World, s: Sys, i: nat, x: SAct)
    requires SysInv(w, s) && SEnabled(w, s, i, x)
    requires w.c.sessions <= w.c.threads + 1 && InWindow(w.c, s.vm)
    ensures SysInv(w, SExec(w, s, i, x)) <==> Fine(w, s, i, x)
    ensures CoreInv(w, SExec(w, s, i, x))
  {
    if Fine(w, s, i, x) { SysStep(w, s, i, x); } else { StepBreaks(w, s, i, x); }
  }
}
